/** Where a trial's evidence is kept (features/lib/model-evidence.ts: segment, cellDir, trialDir). */
module Paths {
  import opened Wrappers
  import opened Flat
  import opened Text
  import opened Utf8

  predicate Plain(c: char) {
    'A' <= c <= 'Z' || 'a' <= c <= 'z' || '0' <= c <= '9' || c == '.' || c == '_' || c == '-'
  }

  /** One character of a folder name. */
  function Spell(c: char, first: bool): (r: string)
    ensures r != ""
  {
    if Plain(c) && !(first && c == '.') then [c] else PercentAll(Encode(c))
  }

  function Spelled(s: string, first: bool): string {
    if s == "" then "" else Spell(s[0], first) + Spelled(s[1..], false)
  }

  function Segment(s: string): string { if s == "" then "%" else Spelled(s, true) }

  /** `segment`. */
  method MakeSegment(s: string) returns (out: string)
    ensures out == Segment(s)
  {
    if s == "" { return "%"; }
    out := "";
    for i := 0 to |s|
      invariant out + Spelled(s[i..], i == 0) == Spelled(s, true)
      invariant out == "" <==> i == 0
    {
      var next := Spell(s[i], out == "");
      assert s[i..][1..] == s[i + 1..];
      Assoc(out, next, Spelled(s[i + 1..], false));
      out := out + next;
    }
    assert out + "" == out;
  }

  // ---- the name says what it is the name of --------------------------------------------------------

  /** The name read back. */
  function Unsegment(name: string): Option<string> {
    if name == "%" then Some("")
    else
      var bytes := Unpercent(name);
      if bytes.None? then None else DecodeAll(bytes.value)
  }

  lemma SpellUnpercents(c: char, first: bool, tail: string, bytes: seq<Byte>)
    requires Unpercent(tail) == Some(bytes)
    ensures Unpercent(Spell(c, first) + tail) == Some(Encode(c) + bytes)
  {
    if Plain(c) && !(first && c == '.') {
      assert ([c] + tail)[1..] == tail;
    } else {
      UnpercentAll(Encode(c), tail, bytes);
    }
  }

  lemma {:induction false} SpelledUnpercents(s: string, first: bool)
    ensures Unpercent(Spelled(s, first)) == Some(EncodeAll(s))
    decreases |s|
  {
    if s != "" {
      SpelledUnpercents(s[1..], false);
      SpellUnpercents(s[0], first, Spelled(s[1..], false), EncodeAll(s[1..]));
    }
  }

  /** `segment` has a left inverse on every string. */
  lemma SegmentReadsBack(s: string)
    ensures Unsegment(Segment(s)) == Some(s)
  {
    if s != "" {
      SpelledUnpercents(s, true);
      DecodeIsInverse(s);
      assert Unpercent("%").None?;
    }
  }

  /** A name that a folder can have: not empty, not hidden, and one step down. */
  predicate Safe(name: string) { name != "" && name[0] != '.' && Free(name, '/') }

  predicate Spellable(c: char) { Plain(c) || c == '%' }

  lemma {:induction false} PercentIsSpellable(bytes: seq<Byte>, i: nat)
    requires i < |PercentAll(bytes)|
    ensures Spellable(PercentAll(bytes)[i])
  {
    if i >= 3 { PercentIsSpellable(bytes[1..], i - 3); }
  }

  lemma {:induction false} SpelledIsSpellable(s: string, first: bool, i: nat)
    requires i < |Spelled(s, first)|
    ensures Spellable(Spelled(s, first)[i])
    decreases |s|
  {
    var head := Spell(s[0], first);
    if i >= |head| {
      SpelledIsSpellable(s[1..], false, i - |head|);
    } else if !(Plain(s[0]) && !(first && s[0] == '.')) {
      PercentIsSpellable(Encode(s[0]), i);
    }
  }

  /** A folder name holds only letters, digits, `.`, `_`, `-` and `%`; it is not empty, does not start
      with `.` and holds no `/`. */
  lemma SegmentIsSafe(s: string)
    ensures forall i :: 0 <= i < |Segment(s)| ==> Spellable(Segment(s)[i])
    ensures Safe(Segment(s))
  {
    if s != "" {
      forall i | 0 <= i < |Segment(s)|
        ensures Spellable(Segment(s)[i])
      {
        SpelledIsSpellable(s, true, i);
      }
      assert Segment(s)[0] == Spell(s[0], true)[0];
    }
  }

  // ---- the path ------------------------------------------------------------------------------------

  /** One part of a path, resolved after those before it (`path.normalize`). */
  function Resolve1(absolute: bool, before: seq<string>, part: string): seq<string> {
    if part == "" || part == "." then before
    else if part != ".." then before + [part]
    else if before != [] && before[|before| - 1] != ".." then before[..|before| - 1]
    else if absolute then before
    else before + [part]
  }

  function Resolve(absolute: bool, parts: seq<string>): seq<string> {
    if parts == [] then []
    else Resolve1(absolute, Resolve(absolute, parts[..|parts| - 1]), parts[|parts| - 1])
  }

  predicate Absolute(path: string) { path != "" && path[0] == '/' }

  /** The folders that a path goes through. */
  function Folders(path: string): seq<string> { Resolve(Absolute(path), Split(path, '/')) }

  function Normalize(path: string): string {
    var absolute, folders := Absolute(path), Folders(path);
    var trailing := if path != "" && path[|path| - 1] == '/' then "/" else "";
    if folders == [] then if absolute then "/" else "." + trailing
    else (if absolute then "/" else "") + Join(folders, '/') + trailing
  }

  /** `path.join`: empty parts are left out. */
  function JoinPath(root: string, names: seq<string>): string {
    Normalize(if root == "" then Join(names, '/') else Join([root] + names, '/'))
  }

  function CellNames(model: string, cell: string): seq<string> {
    [Segment(model)] + Map(Segment, Split(cell, '/'))
  }

  function CellDir(root: string, model: string, cell: string): string {
    JoinPath(root, CellNames(model, cell))
  }

  function TrialDir(root: string, model: string, cell: string, runId: string): string {
    JoinPath(CellDir(root, model, cell), [Segment(runId)])
  }

  ghost predicate AllSafe(names: seq<string>) {
    forall i :: 0 <= i < |names| ==> Safe(names[i])
  }

  /** Safe names are folders, one below the other. */
  lemma {:induction false} SafeNamesDescend(absolute: bool, parts: seq<string>, names: seq<string>)
    requires AllSafe(names)
    ensures Resolve(absolute, parts + names) == Resolve(absolute, parts) + names
    decreases |names|
  {
    if names == [] {
      assert parts + names == parts;
    } else {
      var n := |names| - 1;
      var all := parts + names;
      assert all[..|all| - 1] == parts + names[..n] && all[|all| - 1] == names[n];
      SafeNamesDescend(absolute, parts, names[..n]);
      assert Safe(names[n]);
      assert names == names[..n] + [names[n]];
    }
  }

  predicate IsFolder(name: string) { Free(name, '/') && name != "" && name != "." }

  /** Folders as `Resolve` leaves them: none empty, and `..` only at the front of a relative path. */
  ghost predicate ResolvedAt(absolute: bool, folders: seq<string>, i: nat)
    requires i < |folders|
  {
    IsFolder(folders[i]) && (folders[i] == ".." ==> !absolute && (i > 0 ==> folders[i - 1] == ".."))
  }

  ghost predicate Resolved(absolute: bool, folders: seq<string>) {
    forall i: nat :: i < |folders| ==> ResolvedAt(absolute, folders, i)
  }

  lemma {:induction false} ResolveResolves(absolute: bool, parts: seq<string>)
    requires forall i :: 0 <= i < |parts| ==> Free(parts[i], '/')
    ensures Resolved(absolute, Resolve(absolute, parts))
    decreases |parts|
  {
    if parts != [] {
      var n := |parts| - 1;
      var before := Resolve(absolute, parts[..n]);
      ResolveResolves(absolute, parts[..n]);
      var after := Resolve1(absolute, before, parts[n]);
      forall i: nat | i < |after|
        ensures ResolvedAt(absolute, after, i)
      {
        if i < |before| { assert ResolvedAt(absolute, before, i); }
        if 0 < i == |before| { assert ResolvedAt(absolute, before, i - 1); }
      }
    }
  }

  /** Resolving again changes nothing. */
  lemma {:induction false} ResolvedStays(absolute: bool, folders: seq<string>)
    requires Resolved(absolute, folders)
    ensures Resolve(absolute, folders) == folders
    decreases |folders|
  {
    if folders != [] {
      var n := |folders| - 1;
      forall i: nat | i < n
        ensures ResolvedAt(absolute, folders[..n], i)
      {
        assert ResolvedAt(absolute, folders, i);
      }
      ResolvedStays(absolute, folders[..n]);
      assert ResolvedAt(absolute, folders, n);
      assert folders == folders[..n] + [folders[n]];
    }
  }

  function Path(absolute: bool, folders: seq<string>): string {
    (if absolute then "/" else "") + Join(folders, '/')
  }

  lemma {:induction false} JoinEnds(names: seq<string>)
    requires names != [] && forall i :: 0 <= i < |names| ==> names[i] != "" && Free(names[i], '/')
    ensures var p := Join(names, '/'); p != "" && p[0] != '/' && p[|p| - 1] != '/'
  {
    if |names| > 1 { JoinEnds(names[1..]); }
  }

  /** A path's parts, with names below it. */
  lemma SplitBelow(root: string, names: seq<string>)
    requires names != [] && AllSafe(names)
    ensures Split(root + "/" + Join(names, '/'), '/') == Split(root, '/') + names
  {
    JoinSplit(root, '/');
    JoinConcat(Split(root, '/'), names, '/');
    SplitJoin(Split(root, '/') + names, '/');
  }

  lemma NormalizeBelow(raw: string, absolute: bool, parts: seq<string>, names: seq<string>)
    requires names != [] && AllSafe(names) && Split(raw, '/') == parts + names
    requires Absolute(raw) == absolute && raw != "" && raw[|raw| - 1] != '/'
    ensures Normalize(raw) == Path(absolute, Resolve(absolute, parts) + names)
  {
    SafeNamesDescend(absolute, parts, names);
    var path := Path(absolute, Resolve(absolute, parts) + names);
    assert path + "" == path;
  }

  /** Joining safe names to a path goes down from it, and nowhere else. */
  lemma JoinGoesDown(root: string, names: seq<string>)
    requires names != [] && AllSafe(names)
    ensures JoinPath(root, names) == Path(Absolute(root), Folders(root) + names)
  {
    var below := Join(names, '/');
    JoinEnds(names);
    if root == "" {
      SplitJoin(names, '/');
      assert [] + names == names;
      NormalizeBelow(below, false, [], names);
      EmptyPartIsSkipped(false, []);
      assert Split(root, '/') == [""] + [];
    } else {
      var raw := root + "/" + below;
      JoinConcat([root], names, '/');
      SplitBelow(root, names);
      assert raw[0] == root[0] && raw[|raw| - 1] == below[|below| - 1];
      NormalizeBelow(raw, Absolute(root), Split(root, '/'), names);
    }
  }

  lemma {:induction false} EmptyPartIsSkipped(absolute: bool, parts: seq<string>)
    ensures Resolve(absolute, [""] + parts) == Resolve(absolute, parts)
    decreases |parts|
  {
    var all := [""] + parts;
    if parts == [] {
      assert all[..0] == [];
    } else {
      var n := |parts| - 1;
      assert all[..|all| - 1] == [""] + parts[..n] && all[|all| - 1] == parts[n];
      EmptyPartIsSkipped(absolute, parts[..n]);
    }
  }

  /** A written path says its folders. */
  lemma PathReadsBack(absolute: bool, folders: seq<string>)
    requires folders != [] && Resolved(absolute, folders)
    ensures Path(absolute, folders) != "" && Absolute(Path(absolute, folders)) == absolute
    ensures Folders(Path(absolute, folders)) == folders
  {
    forall i: nat | i < |folders|
      ensures IsFolder(folders[i])
    {
      assert ResolvedAt(absolute, folders, i);
    }
    JoinEnds(folders);
    ResolvedStays(absolute, folders);
    if absolute {
      assert Path(true, folders) == Join([""] + folders, '/') by { assert ([""] + folders)[1..] == folders; }
      SplitJoin([""] + folders, '/');
      EmptyPartIsSkipped(absolute, folders);
    } else {
      assert Path(false, folders) == Join(folders, '/');
      SplitJoin(folders, '/');
    }
  }

  lemma SafeIsAFolder(name: string)
    requires Safe(name)
    ensures IsFolder(name) && name != ".."
  {
  }

  lemma ResolvedBelow(absolute: bool, folders: seq<string>, names: seq<string>)
    requires Resolved(absolute, folders) && AllSafe(names)
    ensures Resolved(absolute, folders + names)
  {
    forall i: nat | i < |folders + names|
      ensures ResolvedAt(absolute, folders + names, i)
    {
      if i >= |folders| {
        SafeIsAFolder(names[i - |folders|]);
      } else {
        assert ResolvedAt(absolute, folders, i);
      }
    }
  }

  lemma BelowIsResolved(root: string, names: seq<string>)
    requires AllSafe(names)
    ensures Resolved(Absolute(root), Folders(root) + names)
  {
    ResolveResolves(Absolute(root), Split(root, '/'));
    ResolvedBelow(Absolute(root), Folders(root), names);
  }

  lemma JoinedTwice(root: string, names: seq<string>, last: seq<string>)
    requires names != [] && last != [] && AllSafe(names) && AllSafe(last)
    ensures var p := JoinPath(JoinPath(root, names), last);
            Absolute(p) == Absolute(root) && Folders(p) == Folders(root) + (names + last)
  {
    var a, f := Absolute(root), Folders(root);
    JoinGoesDown(root, names);
    BelowIsResolved(root, names);
    PathReadsBack(a, f + names);
    JoinGoesDown(Path(a, f + names), last);
    BelowIsResolved(root, names + last);
    Assoc(f, names, last);
    PathReadsBack(a, f + (names + last));
  }

  /** The folders of a trial, below the root. */
  function TrialNames(model: string, cell: string, runId: string): seq<string> {
    CellNames(model, cell) + [Segment(runId)]
  }

  lemma CellNamesAreSafe(model: string, cell: string)
    ensures AllSafe(CellNames(model, cell))
  {
    var parts := Split(cell, '/');
    SegmentIsSafe(model);
    forall i | 0 <= i < |parts|
      ensures Safe(Map(Segment, parts)[i])
    {
      MapAt(Segment, parts, i);
      SegmentIsSafe(parts[i]);
    }
  }

  /** A trial's folder is below the root: one safe folder for the model, one for each part of the cell
      and one for the run. */
  lemma TrialStaysBelow(root: string, model: string, cell: string, runId: string)
    ensures AllSafe(TrialNames(model, cell, runId))
    ensures Absolute(TrialDir(root, model, cell, runId)) == Absolute(root)
    ensures Folders(TrialDir(root, model, cell, runId)) == Folders(root) + TrialNames(model, cell, runId)
  {
    CellNamesAreSafe(model, cell);
    SegmentIsSafe(runId);
    JoinedTwice(root, CellNames(model, cell), [Segment(runId)]);
  }

  lemma SegmentIsInjective(a: string, b: string)
    requires Segment(a) == Segment(b)
    ensures a == b
  {
    SegmentReadsBack(a);
    SegmentReadsBack(b);
  }

  lemma {:induction false} SegmentsAreInjective(a: seq<string>, b: seq<string>)
    requires Map(Segment, a) == Map(Segment, b)
    ensures a == b
  {
    if a != [] && b != [] {
      assert Map(Segment, a)[0] == Segment(a[0]) && Map(Segment, a)[1..] == Map(Segment, a[1..]);
      assert Map(Segment, b)[0] == Segment(b[0]) && Map(Segment, b)[1..] == Map(Segment, b[1..]);
      SegmentIsInjective(a[0], b[0]);
      SegmentsAreInjective(a[1..], b[1..]);
    }
  }

  lemma NamesAreInjective(m: string, c: string, r: string, m': string, c': string, r': string)
    requires TrialNames(m, c, r) == TrialNames(m', c', r')
    ensures m == m' && c == c' && r == r'
  {
    var parts, parts' := Map(Segment, Split(c, '/')), Map(Segment, Split(c', '/'));
    var names, names' := TrialNames(m, c, r), TrialNames(m', c', r');
    assert names[0] == Segment(m) && names'[0] == Segment(m');
    assert names[|names| - 1] == Segment(r) && names'[|names'| - 1] == Segment(r');
    assert names[1..|names| - 1] == parts && names'[1..|names'| - 1] == parts';
    SegmentIsInjective(m, m');
    SegmentIsInjective(r, r');
    SegmentsAreInjective(Split(c, '/'), Split(c', '/'));
    JoinSplit(c, '/');
    JoinSplit(c', '/');
  }

  /** Two trials share a folder only when they are the same trial. */
  lemma TrialDirIsInjective(root: string, m: string, c: string, r: string, m': string, c': string, r': string)
    requires TrialDir(root, m, c, r) == TrialDir(root, m', c', r')
    ensures m == m' && c == c' && r == r'
  {
    TrialStaysBelow(root, m, c, r);
    TrialStaysBelow(root, m', c', r');
    Prefixed(Folders(root), TrialNames(m, c, r), TrialNames(m', c', r'));
    NamesAreInjective(m, c, r, m', c', r');
  }

  lemma Prefixed<T>(a: seq<T>, b: seq<T>, b': seq<T>)
    requires a + b == a + b'
    ensures b == b'
  {
    assert b == (a + b)[|a|..] && b' == (a + b')[|a|..];
  }

  // ---- the folders, one by one ---------------------------------------------------------------------

  /** Below the root: the model's folder, one for each part of the cell, and the run's. */
  lemma TrialFolders(root: string, model: string, cell: string, runId: string)
    ensures var f, n, parts := Folders(TrialDir(root, model, cell, runId)), |Folders(root)|, Split(cell, '/');
            && |f| == n + |parts| + 2 && f[..n] == Folders(root)
            && Unsegment(f[n]) == Some(model) && Unsegment(f[n + |parts| + 1]) == Some(runId)
            && forall k :: 0 <= k < |parts| ==> Unsegment(f[n + 1 + k]) == Some(parts[k])
  {
    TrialStaysBelow(root, model, cell, runId);
    NamesReadBack(model, cell, runId);
    Offset(Folders(root), TrialNames(model, cell, runId));
  }

  lemma NamesReadBack(model: string, cell: string, runId: string)
    ensures var names, parts := TrialNames(model, cell, runId), Split(cell, '/');
            && |names| == |parts| + 2
            && Unsegment(names[0]) == Some(model) && Unsegment(names[|parts| + 1]) == Some(runId)
            && forall k :: 0 <= k < |parts| ==> Unsegment(names[1 + k]) == Some(parts[k])
  {
    var names, parts := TrialNames(model, cell, runId), Split(cell, '/');
    SegmentReadsBack(model);
    SegmentReadsBack(runId);
    forall k | 0 <= k < |parts|
      ensures Unsegment(names[1 + k]) == Some(parts[k])
    {
      MapAt(Segment, parts, k);
      SegmentReadsBack(parts[k]);
    }
  }

  lemma Offset<T>(a: seq<T>, b: seq<T>)
    ensures (a + b)[..|a|] == a && forall k :: 0 <= k < |b| ==> (a + b)[|a| + k] == b[k]
  {
  }

  /** A name of plain characters that does not start with `.` stands as it is. */
  lemma PlainNamesStand(s: string)
    requires s != "" && s[0] != '.'
    requires forall i :: 0 <= i < |s| ==>
               'A' <= s[i] <= 'Z' || 'a' <= s[i] <= 'z' || '0' <= s[i] <= '9' || s[i] in "._-"
    ensures Segment(s) == s
  {
    assert s[0] in "._-" ==> s[0] == '_' || s[0] == '-';
    PlainStands(s, true);
  }

  lemma {:induction false} PlainStands(s: string, first: bool)
    requires forall i :: 0 <= i < |s| ==> Plain(s[i])
    requires first && s != "" ==> s[0] != '.'
    ensures Spelled(s, first) == s
    decreases |s|
  {
    if s != "" { PlainStands(s[1..], false); }
  }

  /** Any other character is spelled octet by octet, and so is a `.` in front. */
  lemma OthersAreSpelled(a: string, c: char, b: string)
    requires forall i :: 0 <= i < |a| ==> Plain(a[i])
    requires if a == "" then c == '.' || !Plain(c) else a[0] != '.' && !Plain(c)
    ensures Segment(a + [c] + b) == a + PercentAll(Encode(c)) + Spelled(b, false)
  {
    SpelledConcat(a, [c] + b, true);
    assert a + [c] + b == a + ([c] + b) && ([c] + b)[1..] == b;
    PlainStands(a, true);
    assert a + (PercentAll(Encode(c)) + Spelled(b, false)) == a + PercentAll(Encode(c)) + Spelled(b, false);
  }

  lemma {:induction false} SpelledConcat(a: string, b: string, first: bool)
    ensures Spelled(a + b, first) == Spelled(a, first) + Spelled(b, first && a == "")
    decreases |a|
  {
    if a == "" {
      assert a + b == b;
    } else {
      assert (a + b)[0] == a[0] && (a + b)[1..] == a[1..] + b;
      SpelledConcat(a[1..], b, false);
    }
  }

  /** Some spellings. */
  lemma SomeSpellings()
    ensures PercentAll(Encode('/')) == "%2F" && PercentAll(Encode(':')) == "%3A" && PercentAll(Encode('.')) == "%2E"
    ensures PercentAll(Encode('\U{e9}')) == "%C3%A9" && PercentAll(Encode('\n')) == "%0A"
  {
    OneOctet('/');
    OneOctet(':');
    OneOctet('.');
    OneOctet('\n');
    var bytes := Encode('\U{e9}');
    assert bytes == [0xC3, 0xA9] && bytes[1..] == [0xA9] && [0xA9][1..] == [];
    assert PercentAll([0xA9]) == Percent(0xA9) + PercentAll([]);
  }

  lemma OneOctet(c: char)
    requires c as int < 0x80
    ensures PercentAll(Encode(c)) == Percent(c as int)
  {
    assert Encode(c)[1..] == [];
  }

  /** How a path is resolved: empty parts and `.` are nothing, and `..` goes up, above the start only in a
      relative path. */
  lemma ResolveLaws(absolute: bool, parts: seq<string>, name: string)
    ensures Resolve(absolute, parts + [""]) == Resolve(absolute, parts)
    ensures Resolve(absolute, parts + ["."]) == Resolve(absolute, parts)
    ensures Safe(name) ==> Resolve(absolute, parts + [name] + [".."]) == Resolve(absolute, parts)
    ensures Resolve(absolute, [".."]) == if absolute then [] else [".."]
  {
    ResolveMore(absolute, parts, "");
    ResolveMore(absolute, parts, ".");
    ResolveMore(absolute, parts, name);
    ResolveMore(absolute, parts + [name], "..");
    ResolveMore(absolute, [], "..");
    assert [] + [".."] == [".."];
  }

  lemma ResolveMore(absolute: bool, parts: seq<string>, part: string)
    ensures Resolve(absolute, parts + [part]) == Resolve1(absolute, Resolve(absolute, parts), part)
  {
    assert (parts + [part])[..|parts|] == parts;
  }
}
