/** The pure decisions of src/kp_dagger/cli/utils/helpers.py: the file-extension check, the
    device-type detector, the output-name builder and the unique-prefix command lookup of
    ClickAliasedGroup, over pathlib's name/stem/suffix rules. */
module CliHelpers {

  import opened Results
  import opened Text

  // ----- pathlib -----

  /** A path: the components of its parent and its final component `name`. */
  datatype Path = Path(parent: seq<string>, name: string)

  /** pathlib's test for a suffix: a last dot that is neither the first nor the last character. */
  predicate HasSuffix(name: string)
  {
    var i := RFind(name, '.');
    0 < i < |name| - 1
  }

  /** `PurePath.suffix`: from the last dot on, or "" when there is none. */
  function Suffix(name: string): (r: string)
    ensures r == [] || (|r| >= 2 && r[0] == '.' && forall j :: 0 < j < |r| ==> r[j] != '.')
    ensures r == [] <==> !HasSuffix(name)
  {
    if HasSuffix(name) then name[RFind(name, '.')..] else ""
  }

  /** `PurePath.stem`: the name without its suffix. */
  function Stem(name: string): string
  {
    if HasSuffix(name) then name[..RFind(name, '.')] else name
  }

  lemma StemSuffixSplit(name: string)
    ensures Stem(name) + Suffix(name) == name
    ensures HasSuffix(name) ==> Stem(name) != []
  {
  }

  // ----- validate_file_extensions -----

  predicate ExtensionAllowed(f: Path, allowed: set<string>)
  {
    Lower(Suffix(f.name)) in allowed
  }

  /** The files whose lower-cased suffix is not allowed, in their order. */
  function InvalidFiles(files: seq<Path>, allowed: set<string>): seq<Path>
  {
    if files == [] then []
    else
      var last := files[|files| - 1];
      InvalidFiles(files[..|files| - 1], allowed) + (if ExtensionAllowed(last, allowed) then [] else [last])
  }

  lemma {:induction false} InvalidFilesMembers(files: seq<Path>, allowed: set<string>)
    ensures forall f :: f in InvalidFiles(files, allowed) <==> f in files && !ExtensionAllowed(f, allowed)
  {
    if files != [] {
      var init, last := files[..|files| - 1], files[|files| - 1];
      InvalidFilesMembers(init, allowed);
      assert files == init + [last];
      forall f
        ensures f in InvalidFiles(files, allowed) <==> f in files && !ExtensionAllowed(f, allowed)
      {
        assert f in files <==> f in init || f == last;
      }
    }
  }

  /** No file is collected exactly when every file is allowed. */
  lemma NoInvalidFilesIff(files: seq<Path>, allowed: set<string>)
    ensures InvalidFiles(files, allowed) == [] <==> forall i :: 0 <= i < |files| ==> ExtensionAllowed(files[i], allowed)
  {
    InvalidFilesMembers(files, allowed);
    var inv := InvalidFiles(files, allowed);
    if inv != [] {
      assert inv[0] in inv;
    }
  }

  /** validate_file_extensions: collects the files with a disallowed extension and answers
      whether there were none. */
  method ValidateFileExtensions(files: seq<Path>, allowed: set<string>) returns (ok: bool, invalid: seq<Path>)
    ensures invalid == InvalidFiles(files, allowed)
    ensures ok <==> forall i :: 0 <= i < |files| ==> ExtensionAllowed(files[i], allowed)
  {
    invalid := [];
    var i := 0;
    while i < |files|
      invariant 0 <= i <= |files|
      invariant invalid == InvalidFiles(files[..i], allowed)
    {
      assert files[..i + 1][..i] == files[..i];
      if !ExtensionAllowed(files[i], allowed) {
        invalid := invalid + [files[i]];
      }
      i := i + 1;
    }
    assert files[..|files|] == files;
    NoInvalidFilesIff(files, allowed);
    ok := invalid == [];
  }

  // ----- detect_device_type -----

  const MaxReadLines: nat := 50

  const CiscoAsa := "cisco-asa"
  const CiscoIos := "cisco-ios"
  const Fortigate := "fortigate"
  const PaloAlto := "paloalto"

  /** The text of a sequence of lines, each carrying its own line ending. */
  function Concat(lines: seq<string>): string
  {
    if lines == [] then "" else Concat(lines[..|lines| - 1]) + lines[|lines| - 1]
  }

  /** The first `n` lines, or all of them when there are fewer. */
  function Take(lines: seq<string>, n: nat): (r: seq<string>)
    ensures |r| == if |lines| < n then |lines| else n
  {
    if |lines| <= n then lines else lines[..n]
  }

  /** The heuristics, in their order of precedence, over lower-cased text. */
  function Classify(content: string): (device: string)
    ensures device in {CiscoAsa, CiscoIos, Fortigate, PaloAlto}
  {
    if Contains(content, "version ") && (Contains(content, "cisco") || Contains(content, "ios")) then
      if Contains(content, "asa") || Contains(content, "pix") then CiscoAsa else CiscoIos
    else if Contains(content, "config system global") || Contains(content, "fortigate") then Fortigate
    else if Contains(content, "config") && (Contains(content, "paloalto") || Contains(content, "panorama")) then PaloAlto
    else CiscoIos
  }

  /** The device type read off the first `n` lines. */
  function DeviceTypeOf(lines: seq<string>, n: nat): string
  {
    Classify(Lower(Concat(Take(lines, n))))
  }

  lemma ConcatStep(lines: seq<string>, i: nat)
    requires i < |lines|
    ensures Lower(Concat(lines[..i + 1])) == Lower(Concat(lines[..i])) + Lower(lines[i])
  {
    assert lines[..i + 1][..i] == lines[..i];
    LowerAppend(Concat(lines[..i]), lines[i]);
  }

  /** detect_device_type as written: the loop appends a line before testing `i > 50`, so it
      reads 52 lines. A file that cannot be read (None) gives the safe default. */
  method DetectDeviceType(file: Option<seq<string>>) returns (device: string)
    ensures file.None? ==> device == CiscoIos
    ensures file.Some? ==> device == DeviceTypeOf(file.value, MaxReadLines + 2)
    ensures device in {CiscoAsa, CiscoIos, Fortigate, PaloAlto}
  {
    if file.None? {
      return CiscoIos;
    }
    var lines := file.value;
    var content := "";
    var i := 0;
    while i < |lines|
      invariant 0 <= i <= |lines| && i <= MaxReadLines + 1
      invariant content == Lower(Concat(lines[..i]))
    {
      ConcatStep(lines, i);
      content := content + Lower(lines[i]);
      if i > MaxReadLines {
        i := i + 1;
        break;
      }
      i := i + 1;
    }
    assert lines[..i] == Take(lines, MaxReadLines + 2);
    device := Classify(content);
  }

  /** detect_device_type with the documented limit of 50 lines. */
  method DetectDeviceTypeLimited(file: Option<seq<string>>) returns (device: string)
    ensures file.None? ==> device == CiscoIos
    ensures file.Some? ==> device == DeviceTypeOf(file.value, MaxReadLines)
    ensures device in {CiscoAsa, CiscoIos, Fortigate, PaloAlto}
  {
    if file.None? {
      return CiscoIos;
    }
    var lines := file.value;
    var content := "";
    var i := 0;
    while i < |lines| && i < MaxReadLines
      invariant 0 <= i <= |lines| && i <= MaxReadLines
      invariant content == Lower(Concat(lines[..i]))
    {
      ConcatStep(lines, i);
      content := content + Lower(lines[i]);
      i := i + 1;
    }
    assert lines[..i] == Take(lines, MaxReadLines);
    device := Classify(content);
  }

  /** A Cisco banner decides the result whatever else the text holds. */
  lemma CiscoTakesPrecedence(content: string)
    requires Contains(content, "version ") && Contains(content, "cisco")
    ensures Classify(content) == CiscoAsa || Classify(content) == CiscoIos
    ensures Classify(content) == CiscoAsa <==> Contains(content, "asa") || Contains(content, "pix")
  {
  }

  lemma {:induction false} NotContainsWithoutFirstChar(text: string, pat: string)
    requires pat != []
    requires forall k :: 0 <= k < |text| ==> text[k] != pat[0]
    ensures !Contains(text, pat)
    decreases |text|
  {
    if |text| >= |pat| {
      assert text[..|pat|][0] == text[0];
      NotContainsWithoutFirstChar(text[1..], pat);
    }
  }

  lemma {:induction false} ContainsAtEnd(text: string, pat: string)
    ensures Contains(text + pat, pat)
    decreases |text|
  {
    if text != [] {
      assert (text + pat)[1..] == text[1..] + pat;
      ContainsAtEnd(text[1..], pat);
    } else {
      assert (text + pat)[..|pat|] == pat;
    }
  }

  lemma {:induction false} ConcatOfBlankLines(lines: seq<string>)
    requires forall i :: 0 <= i < |lines| ==> lines[i] == "\n"
    ensures forall k :: 0 <= k < |Concat(lines)| ==> Concat(lines)[k] == '\n'
  {
    if lines != [] {
      ConcatOfBlankLines(lines[..|lines| - 1]);
    }
  }

  /** The line that decides the 52-line reading but lies beyond the first 50. */
  lemma ReadLimitCounterexample(lines: seq<string>)
    requires |lines| == MaxReadLines + 2
    requires forall i :: 0 <= i < MaxReadLines + 1 ==> lines[i] == "\n"
    requires lines[MaxReadLines + 1] == "fortigate"
    ensures DeviceTypeOf(lines, MaxReadLines) == CiscoIos
    ensures DeviceTypeOf(lines, MaxReadLines + 2) == Fortigate
  {
    BlankHeadIsDefault(lines);
    FortigateLineDecides(lines);
  }

  lemma BlankHeadIsDefault(lines: seq<string>)
    requires |lines| == MaxReadLines + 2
    requires forall i :: 0 <= i < MaxReadLines + 1 ==> lines[i] == "\n"
    ensures DeviceTypeOf(lines, MaxReadLines) == CiscoIos
  {
    var head := Take(lines, MaxReadLines);
    ConcatOfBlankLines(head);
    var c := Lower(Concat(head));
    assert forall k :: 0 <= k < |c| ==> c[k] == '\n';
    NotContainsWithoutFirstChar(c, "version ");
    NotContainsWithoutFirstChar(c, "config system global");
    NotContainsWithoutFirstChar(c, "fortigate");
    NotContainsWithoutFirstChar(c, "config");
  }

  lemma FortigateLineDecides(lines: seq<string>)
    requires |lines| == MaxReadLines + 2
    requires forall i :: 0 <= i < MaxReadLines + 1 ==> lines[i] == "\n"
    requires lines[MaxReadLines + 1] == "fortigate"
    ensures DeviceTypeOf(lines, MaxReadLines + 2) == Fortigate
  {
    var blank := lines[..MaxReadLines + 1];
    var d := Lower(Concat(blank)) + "fortigate";
    LowerOfFortigateLines(lines, blank);
    ContainsAtEnd(Lower(Concat(blank)), "fortigate");
    NoVersionBeforeFortigate(blank, d);
  }

  lemma LowerOfFortigateLines(lines: seq<string>, blank: seq<string>)
    requires |lines| == MaxReadLines + 2 && blank == lines[..MaxReadLines + 1]
    requires lines[MaxReadLines + 1] == "fortigate"
    ensures Lower(Concat(Take(lines, MaxReadLines + 2))) == Lower(Concat(blank)) + "fortigate"
  {
    assert Take(lines, MaxReadLines + 2) == lines;
    assert lines[..|lines| - 1] == blank;
    LowerAppend(Concat(blank), "fortigate");
    assert Lower("fortigate") == "fortigate";
  }

  lemma NoVersionBeforeFortigate(blank: seq<string>, d: string)
    requires forall i :: 0 <= i < |blank| ==> blank[i] == "\n"
    requires d == Lower(Concat(blank)) + "fortigate"
    ensures !Contains(d, "version ")
  {
    ConcatOfBlankLines(blank);
    assert forall k :: 0 <= k < |d| ==> d[k] != 'v';
    NotContainsWithoutFirstChar(d, "version ");
  }

  // ----- get_output_filename -----

  /** get_output_filename: `<stem>_<suffix><extension>` beside the input file. */
  function GetOutputFilename(inputFile: Path, suffix: string, extension: string): (out: Path)
    ensures out.parent == inputFile.parent
  {
    Path(inputFile.parent, Stem(inputFile.name) + "_" + suffix + extension)
  }

  /** For an extension of the form ".ext" (one dot, something after it), the output path's own
      suffix is that extension and its stem is the input's stem, "_" and the suffix. */
  lemma OutputFilenameParts(inputFile: Path, suffix: string, extension: string)
    requires |extension| >= 2 && extension[0] == '.'
    requires forall j :: 0 < j < |extension| ==> extension[j] != '.'
    ensures Suffix(GetOutputFilename(inputFile, suffix, extension).name) == extension
    ensures Stem(GetOutputFilename(inputFile, suffix, extension).name) == Stem(inputFile.name) + "_" + suffix
  {
    var base := Stem(inputFile.name) + "_" + suffix;
    var name := base + extension;
    assert name == GetOutputFilename(inputFile, suffix, extension).name;
    RFindAfter(base, extension);
    assert name[|base|..] == extension;
    assert name[..|base|] == base;
  }

  lemma RFindAfter(base: string, extension: string)
    requires |extension| >= 1 && extension[0] == '.'
    requires forall j :: 0 < j < |extension| ==> extension[j] != '.'
    ensures RFind(base + extension, '.') == |base|
  {
    var s := base + extension;
    assert s[|base|] == '.';
  }

  // ----- ClickAliasedGroup.get_command -----

  /** Python's `<` on strings: lexicographic by code point. */
  predicate StrLess(a: string, b: string)
  {
    if a == [] then b != []
    else if b == [] then false
    else if a[0] != b[0] then a[0] < b[0]
    else StrLess(a[1..], b[1..])
  }

  predicate SortedNames(s: seq<string>)
  {
    forall i, j :: 0 <= i < j < |s| ==> StrLess(s[i], s[j])
  }

  /** A click group: its command table and `list_commands`, the sorted command names. */
  datatype Group<T> = Group(commands: map<string, T>, listed: seq<string>)

  predicate WellListed<T>(g: Group<T>)
  {
    && SortedNames(g.listed)
    && (forall n :: n in g.listed ==> n in g.commands)
    && (forall n :: n in g.commands ==> n in g.listed)
  }

  /** `[cmd for cmd in names if cmd.startswith(prefix)]`. */
  function PrefixMatches(names: seq<string>, prefix: string): (r: seq<string>)
    ensures forall x :: x in r <==> x in names && prefix <= x
  {
    if names == [] then []
    else (if prefix <= names[0] then [names[0]] else []) + PrefixMatches(names[1..], prefix)
  }

  lemma {:induction false} PrefixMatchesSorted(names: seq<string>, prefix: string)
    requires SortedNames(names)
    ensures SortedNames(PrefixMatches(names, prefix))
  {
    if names != [] {
      var tail := names[1..];
      assert SortedNames(tail) by {
        forall i, j | 0 <= i < j < |tail|
          ensures StrLess(tail[i], tail[j])
        {
          assert tail[i] == names[i + 1] && tail[j] == names[j + 1];
        }
      }
      PrefixMatchesSorted(tail, prefix);
      var rest := PrefixMatches(tail, prefix);
      forall x | x in rest
        ensures StrLess(names[0], x)
      {
        var k :| 0 <= k < |tail| && tail[k] == x;
        assert names[k + 1] == x;
      }
    }
  }

  /** ClickAliasedGroup.get_command: the exact name first, then a unique prefix match; no match
      gives None and several make ctx.fail list the matches in sorted order. */
  function GetCommand<T>(g: Group<T>, name: string): (r: Result<Option<T>>)
    requires WellListed(g)
    ensures r.Failure? ==> r.error.UsageError? && |r.error.matches| >= 2
    ensures r.Failure? ==> SortedNames(r.error.matches)
    ensures r.Failure? ==> forall x :: x in r.error.matches <==> x in g.commands && name <= x
  {
    if name in g.commands then Success(Some(g.commands[name]))
    else
      var matches := PrefixMatches(g.listed, name);
      if |matches| == 0 then Success(None)
      else if |matches| == 1 then
        assert matches[0] in matches;
        Success(Some(g.commands[matches[0]]))
      else
        PrefixMatchesSorted(g.listed, name);
        Failure(UsageError(matches))
  }

  lemma ExactNameWins<T>(g: Group<T>, name: string)
    requires WellListed(g) && name in g.commands
    ensures GetCommand(g, name) == Success(Some(g.commands[name]))
  {
  }

  lemma NoMatchGivesNone<T>(g: Group<T>, name: string)
    requires WellListed(g)
    ensures GetCommand(g, name) == Success(None) <==> forall k :: k in g.commands ==> !(name <= k)
  {
    if name !in g.commands {
      var matches := PrefixMatches(g.listed, name);
      if |matches| > 0 {
        assert matches[0] in matches;
      }
    } else {
      assert name <= name;
    }
  }

  lemma UniquePrefixMatch<T>(g: Group<T>, name: string, k: string)
    requires WellListed(g) && name !in g.commands
    requires k in g.commands && name <= k
    requires forall k' :: k' in g.commands && name <= k' ==> k' == k
    ensures GetCommand(g, name) == Success(Some(g.commands[k]))
  {
    var matches := PrefixMatches(g.listed, name);
    assert k in matches;
    if |matches| > 1 {
      assert matches[0] in matches && matches[1] in matches;
      PrefixMatchesSorted(g.listed, name);
      StrLessIrreflexive(k);
      assert false;
    }
  }

  lemma AmbiguousPrefixFails<T>(g: Group<T>, name: string, a: string, b: string)
    requires WellListed(g) && name !in g.commands
    requires a in g.commands && b in g.commands && a != b && name <= a && name <= b
    ensures GetCommand(g, name).Failure?
  {
    var matches := PrefixMatches(g.listed, name);
    assert a in matches && b in matches;
  }

  lemma {:induction false} StrLessIrreflexive(a: string)
    ensures !StrLess(a, a)
    decreases |a|
  {
    if a != [] {
      StrLessIrreflexive(a[1..]);
    }
  }

  lemma {:induction false} StrLessAsymmetric(a: string, b: string)
    requires StrLess(a, b)
    ensures !StrLess(b, a)
    decreases |a|
  {
    if a != [] && b != [] && a[0] == b[0] {
      StrLessAsymmetric(a[1..], b[1..]);
    }
  }

  /** A strictly sorted list is determined by its elements, so the match list is exactly what
      `sorted(matches)` returns. */
  lemma {:induction false} SortedNamesUnique(a: seq<string>, b: seq<string>)
    requires SortedNames(a) && SortedNames(b)
    requires forall x :: x in a <==> x in b
    ensures a == b
    decreases |a|
  {
    if a != [] {
      assert a[0] in b;
    }
    if b != [] {
      assert b[0] in a;
    }
    if a != [] && b != [] {
      if a[0] != b[0] {
        assert a[0] in b;
        var i :| 0 <= i < |b| && b[i] == a[0];
        assert b[0] in a;
        var j :| 0 <= j < |a| && a[j] == b[0];
        assert StrLess(b[0], a[0]) && StrLess(a[0], b[0]);
        StrLessAsymmetric(a[0], b[0]);
      }
      forall x
        ensures x in a[1..] <==> x in b[1..]
      {
        if x in a[1..] {
          var i :| 1 <= i < |a| && a[i] == x;
          assert StrLess(a[0], x);
          StrLessIrreflexive(x);
          assert x in b;
          var j :| 0 <= j < |b| && b[j] == x;
          assert j != 0;
          assert x == b[1..][j - 1];
        }
        if x in b[1..] {
          var j :| 1 <= j < |b| && b[j] == x;
          assert StrLess(b[0], x);
          StrLessIrreflexive(x);
          assert x in a;
          var i :| 0 <= i < |a| && a[i] == x;
          assert i != 0;
          assert x == a[1..][i - 1];
        }
      }
      assert SortedNames(a[1..]) by {
        forall i, j | 0 <= i < j < |a[1..]|
          ensures StrLess(a[1..][i], a[1..][j])
        {
          assert a[1..][i] == a[i + 1] && a[1..][j] == a[j + 1];
        }
      }
      assert SortedNames(b[1..]) by {
        forall i, j | 0 <= i < j < |b[1..]|
          ensures StrLess(b[1..][i], b[1..][j])
        {
          assert b[1..][i] == b[i + 1] && b[1..][j] == b[j + 1];
        }
      }
      SortedNamesUnique(a[1..], b[1..]);
      assert a == [a[0]] + a[1..] && b == [b[0]] + b[1..];
    }
  }
}
