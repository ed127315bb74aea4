/** The field validators and string form of pybastion's IPAddress model
    (src/pybastion/models/normalized/ip_address.py). Parsing an address with Python's
    `ipaddress.ip_address` is a parameter: whether a string names an IPv4 or IPv6 address. */
module PyBastionIpAddress {

  import opened Results
  import opened Text

  datatype IpVersion = IPv4 | IPv6

  const Ipv4MaxPrefixLength: int := 32
  const Ipv6MaxPrefixLength: int := 128

  function MaxPrefixLength(v: IpVersion): int
  {
    if v == IPv4 then Ipv4MaxPrefixLength else Ipv6MaxPrefixLength
  }

  predicate InPrefixRange(n: int, v: IpVersion)
  {
    0 <= n <= MaxPrefixLength(v)
  }

  /** validate_ip_address: the value unchanged when it parses, else ValueError. */
  function ValidateIpAddress(isIpAddress: string -> bool, value: string): (r: Result<string>)
    ensures r.Success? <==> isIpAddress(value)
    ensures r.Success? ==> r.value == value
    ensures r.Failure? ==> r.error == ValueError
  {
    if isIpAddress(value) then Success(value) else Failure(ValueError)
  }

  /** validate_netmask: None passes; a string must parse as an address. */
  function ValidateNetmask(isIpAddress: string -> bool, value: Option<string>): (r: Result<Option<string>>)
    ensures r.Success? <==> value.None? || isIpAddress(value.value)
    ensures r.Success? ==> r.value == value
    ensures r.Failure? ==> r.error == ValueError
  {
    if value.None? then Success(value)
    else if isIpAddress(value.value) then Success(value)
    else Failure(ValueError)
  }

  /** validate_prefix_length, given the `ip_version` found among the fields validated so far:
      None passes, and a value outside the version's range raises ValueError. With no version
      known, every integer passes. */
  function ValidatePrefixLength(value: Option<int>, ipVersion: Option<IpVersion>): (r: Result<Option<int>>)
    ensures r.Success? ==> r.value == value
    ensures r.Failure? ==> r.error == ValueError
    ensures r.Failure? <==> value.Some? && ipVersion.Some? && !InPrefixRange(value.value, ipVersion.value)
  {
    if value.None? then Success(value)
    else if ipVersion == Some(IPv4) && !(0 <= value.value <= Ipv4MaxPrefixLength) then Failure(ValueError)
    else if ipVersion == Some(IPv6) && !(0 <= value.value <= Ipv6MaxPrefixLength) then Failure(ValueError)
    else
      assert ipVersion.Some? ==> ipVersion.value.IPv4? || ipVersion.value.IPv6?;
      Success(value)
  }

  /** The check as it runs when the model is validated as a whole: fields are validated in
      declaration order and `prefix_length` is declared before `ip_version`, so the version is
      never among the data seen so far. */
  function PrefixLengthAsDeclared(value: Option<int>, ipVersion: IpVersion): (r: Result<Option<int>>)
    ensures r == Success(value)
  {
    ValidatePrefixLength(value, None)
  }

  /** An IPv4 address with prefix length 200 passes validation as declared. */
  lemma OutOfRangePrefixAccepted()
    ensures PrefixLengthAsDeclared(Some(200), IPv4).Success?
    ensures ValidatePrefixLength(Some(200), Some(IPv4)).Failure?
  {
  }

  /** The check with the record's own version: what assignment validation runs (the other
      fields are then in the data seen), and what whole-model validation evidently intends.
      Exactly the lengths in the version's range pass. */
  function PrefixLengthForVersion(value: Option<int>, ipVersion: IpVersion): (r: Result<Option<int>>)
    ensures r.Success? <==> value.None? || InPrefixRange(value.value, ipVersion)
    ensures r.Success? ==> r.value == value
  {
    ValidatePrefixLength(value, Some(ipVersion))
  }

  /** Every prefix length accepted for IPv4 is accepted for IPv6. */
  lemma Ipv4RangeWithinIpv6(value: Option<int>)
    ensures PrefixLengthForVersion(value, IPv4).Success? ==> PrefixLengthForVersion(value, IPv6).Success?
  {
  }

  // ----- __str__ -----

  datatype IpAddressText = IpAddressText(ipAddress: string, prefixLength: Option<int>)

  /** `__str__`: `ip/prefix` when a prefix length is set, else the address alone. */
  function Str(a: IpAddressText): (s: string)
    ensures a.prefixLength.None? ==> s == a.ipAddress
    ensures a.prefixLength.Some? ==> |s| > |a.ipAddress| + 1 && s[..|a.ipAddress|] == a.ipAddress && s[|a.ipAddress|] == '/'
  {
    if a.prefixLength.Some? then a.ipAddress + "/" + IntToString(a.prefixLength.value) else a.ipAddress
  }

  /** Reads CIDR text back: the part before the last '/' and the integer after it. */
  function ParseCidr(s: string): IpAddressText
  {
    var i := RFind(s, '/');
    if i < 0 then IpAddressText(s, None)
    else IpAddressText(s[..i], ParseInt(s[i + 1..]))
  }

  lemma IntToStringHasNoSlash(n: int)
    ensures forall k :: 0 <= k < |IntToString(n)| ==> IntToString(n)[k] != '/'
  {
    var d := NatDigits(if n < 0 then -n else n);
    assert forall k :: 0 <= k < |d| ==> IsDigit(d[k]);
  }

  /** The string form is read back to the same address and prefix length, for an address that
      holds no '/'. */
  lemma StrRoundTrip(a: IpAddressText)
    requires forall k :: 0 <= k < |a.ipAddress| ==> a.ipAddress[k] != '/'
    ensures ParseCidr(Str(a)) == a
  {
    var s := Str(a);
    if a.prefixLength.Some? {
      var n := a.prefixLength.value;
      var digits := IntToString(n);
      IntToStringHasNoSlash(n);
      assert s == a.ipAddress + "/" + digits;
      assert forall k :: |a.ipAddress| < k < |s| ==> s[k] == digits[k - |a.ipAddress| - 1];
      var i := RFind(s, '/');
      assert i == |a.ipAddress|;
      assert s[i + 1..] == digits;
      IntToStringRoundTrip(n);
    } else {
      assert RFind(s, '/') < 0;
    }
  }
}
