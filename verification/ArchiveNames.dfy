/** Archive paths of an error report (scripts/error_report.py, `normalize_archive_path` and `ReportBuilder`). */
module ArchiveNames {
  import opened Wrappers
  import opened PyText

  // ----- Normalising -------------------------------------------------------

  function Filter(parts: seq<string>, drop: set<string>): seq<string> {
    if parts == [] then []
    else if parts[0] in drop then Filter(parts[1..], drop)
    else [parts[0]] + Filter(parts[1..], drop)
  }

  /** The root `pathlib` keeps: two leading slashes stay two, any other number becomes one. */
  function Root(path: string): string {
    if path == "" || path[0] != '/' then ""
    else if "//" <= path && !("///" <= path) then "//"
    else "/"
  }

  /** `Path(path).as_posix()` */
  function AsPosix(path: string): string {
    var text := Root(path) + Join(Filter(Split(path, '/'), {"", "."}), '/');
    if text == "" then "." else text
  }

  function LStripSlashes(s: string): string {
    if s != "" && s[0] == '/' then LStripSlashes(s[1..]) else s
  }

  const UNSAFE: set<string> := {"", ".", ".."}

  /** `normalize_archive_path` */
  function NormalizeArchivePath(path: string): string {
    Join(Filter(Split(LStripSlashes(AsPosix(path)), '/'), UNSAFE), '/')
  }

  /** No empty, `.` or `..` segment; the empty name has no segments at all. */
  ghost predicate Safe(name: string) {
    name == "" || forall i :: 0 <= i < |Split(name, '/')| ==> Split(name, '/')[i] !in UNSAFE
  }

  lemma {:induction false} FilterKeeps(parts: seq<string>, drop: set<string>)
    ensures forall x :: x in Filter(parts, drop) <==> x in parts && x !in drop
  {
    if parts != [] { FilterKeeps(parts[1..], drop); }
  }

  lemma {:induction false} FilterFilter(parts: seq<string>, first: set<string>, second: set<string>)
    requires first <= second
    ensures Filter(Filter(parts, first), second) == Filter(parts, second)
  {
    if parts != [] { FilterFilter(parts[1..], first, second); }
  }

  lemma {:induction false} FilterNothing(parts: seq<string>, drop: set<string>)
    requires forall i :: 0 <= i < |parts| ==> parts[i] !in drop
    ensures Filter(parts, drop) == parts
  {
    if parts != [] { FilterNothing(parts[1..], drop); }
  }

  lemma {:induction false} SplitSlash(rest: string)
    ensures Split("/" + rest, '/') == [""] + Split(rest, '/')
  {
    var s := "/" + rest;
    IndexOfConcat("", '/', rest);
    assert "" + ['/'] + rest == s;
    assert s[..0] == "" && s[1..] == rest;
  }

  /** Leading slashes only make empty segments. */
  lemma {:induction false} LeadingSlashes(s: string)
    ensures Filter(Split(LStripSlashes(s), '/'), UNSAFE) == Filter(Split(s, '/'), UNSAFE)
  {
    if s != "" && s[0] == '/' {
      assert s == "/" + s[1..];
      SplitSlash(s[1..]);
      LeadingSlashes(s[1..]);
    }
  }

  lemma {:induction false} KeptSegments(kept: seq<string>)
    requires forall i :: 0 <= i < |kept| ==> '/' !in kept[i]
    ensures Filter(Split(Join(kept, '/'), '/'), UNSAFE) == Filter(kept, UNSAFE)
  {
    if kept == [] {
      assert Split("", '/') == [""];
    } else {
      SplitJoin(kept, '/');
    }
  }

  lemma {:induction false} SlashAddsNothing(s: string)
    ensures Filter(Split("/" + s, '/'), UNSAFE) == Filter(Split(s, '/'), UNSAFE)
  {
    SplitSlash(s);
  }

  lemma {:induction false} RootSegments(root: string, body: string)
    requires root in {"", "/", "//"}
    ensures Filter(Split(root + body, '/'), UNSAFE) == Filter(Split(body, '/'), UNSAFE)
  {
    if root == "" {
      assert root + body == body;
    } else {
      SlashAddsNothing(body);
      if root == "//" {
        SlashAddsNothing("/" + body);
        assert root + body == "/" + ("/" + body);
      }
    }
  }

  lemma {:induction false} AsPosixSegments(path: string)
    ensures Filter(Split(AsPosix(path), '/'), UNSAFE) == Filter(Split(path, '/'), UNSAFE)
  {
    var kept := Filter(Split(path, '/'), {"", "."});
    FilterFilter(Split(path, '/'), {"", "."}, UNSAFE);
    assert forall i :: 0 <= i < |kept| ==> '/' !in kept[i] by {
      FilterKeeps(Split(path, '/'), {"", "."});
      JoinSplit(path, '/');
      forall i | 0 <= i < |kept| ensures '/' !in kept[i] { assert kept[i] in kept; }
    }
    KeptSegments(kept);
    RootSegments(Root(path), Join(kept, '/'));
    if Root(path) + Join(kept, '/') == "" {
      assert Split(".", '/') == ["."];
      assert Split("", '/') == [""];
    }
  }

  lemma {:induction false} NormalIsFiltered(path: string)
    ensures NormalizeArchivePath(path) == Join(Filter(Split(path, '/'), UNSAFE), '/')
  {
    LeadingSlashes(AsPosix(path));
    AsPosixSegments(path);
  }

  /** Normalising keeps exactly the safe segments of the given path, in order. */
  lemma {:induction false} NormalizeKeepsSafeSegments(path: string)
    ensures NormalizeArchivePath(path) == Join(Filter(Split(path, '/'), UNSAFE), '/')
    ensures Safe(NormalizeArchivePath(path))
    ensures NormalizeArchivePath(NormalizeArchivePath(path)) == NormalizeArchivePath(path)
  {
    NormalIsFiltered(path);
    var name := NormalizeArchivePath(path);
    var kept := Filter(Split(path, '/'), UNSAFE);
    FilterKeeps(Split(path, '/'), UNSAFE);
    JoinSplit(path, '/');
    NormalIsFiltered(name);
    if kept == [] {
      assert Split(name, '/') == [""];
    } else {
      forall i | 0 <= i < |kept| ensures '/' !in kept[i] && kept[i] !in UNSAFE { assert kept[i] in kept; }
      SplitJoin(kept, '/');
      FilterNothing(kept, UNSAFE);
    }
  }

  // ----- Candidate names ---------------------------------------------------

  /** `str.rfind`: -1 when there is none. */
  function LastIndexOf(s: string, c: char): (i: int)
    ensures -1 <= i < |s| && (i >= 0 ==> s[i] == c) && forall j :: i < j < |s| ==> s[j] != c
  {
    if s == "" then -1
    else if s[|s| - 1] == c then |s| - 1
    else
      var rest := s[..|s| - 1];
      assert forall j :: 0 <= j < |rest| ==> rest[j] == s[j];
      LastIndexOf(rest, c)
  }

  predicate OnlyDots(s: string) { forall i :: 0 <= i < |s| ==> s[i] == '.' }

  /** Where `os.path.splitext` cuts. */
  function SuffixStart(p: string): (i: nat)
    ensures LastIndexOf(p, '/') < i <= |p|
  {
    var slash := LastIndexOf(p, '/');
    var dot := LastIndexOf(p, '.');
    if dot > slash && !OnlyDots(p[slash + 1..dot]) then dot else |p|
  }

  function Candidate(name: string, counter: nat): string {
    name[..SuffixStart(name)] + "-" + Decimal(counter) + name[SuffixStart(name)..]
  }

  lemma {:induction false} DecimalNonEmpty(n: nat)
    ensures Decimal(n) != "" && (n >= 10 ==> |Decimal(n)| > 1)
  {
    if n >= 10 { DecimalNonEmpty(n / 10); }
  }

  lemma {:induction false} DecimalInjective(m: nat, n: nat)
    requires Decimal(m) == Decimal(n)
    ensures m == n
  {
    var d, e := Decimal(m), Decimal(n);
    assert d[|d| - 1] == '0' + (m % 10) as char && e[|e| - 1] == '0' + (n % 10) as char;
    DecimalNonEmpty(m / 10);
    DecimalNonEmpty(n / 10);
    if m >= 10 && n >= 10 {
      assert d[..|d| - 1] == Decimal(m / 10) && e[..|e| - 1] == Decimal(n / 10);
      DecimalInjective(m / 10, n / 10);
    }
  }

  lemma {:induction false} CandidatesDiffer(name: string, m: nat, n: nat)
    requires Candidate(name, m) == Candidate(name, n)
    ensures m == n
  {
    var k := SuffixStart(name);
    var a, b := Candidate(name, m), Candidate(name, n);
    assert a[k + 1..|a| - (|name| - k)] == Decimal(m) && b[k + 1..|b| - (|name| - k)] == Decimal(n);
    DecimalInjective(m, n);
  }

  lemma {:induction false} NoSlashInDecimal(n: nat)
    ensures '/' !in Decimal(n)
  {
    if n >= 10 { NoSlashInDecimal(n / 10); }
  }

  lemma {:induction false} FirstSegment(dir: string) returns (first: string, rest: string)
    requires dir != "" && dir[|dir| - 1] == '/'
    ensures dir == first + ['/'] + rest && '/' !in first
    ensures rest == "" || rest[|rest| - 1] == '/'
  {
    assert '/' in dir;
    first, rest := CutAtFirst(dir, '/');
    assert rest == "" || rest[|rest| - 1] == dir[|dir| - 1];
  }

  lemma {:induction false} ButLast(first: string, rest: seq<string>)
    requires rest != []
    ensures ([first] + rest)[..|[first] + rest| - 1] == [first] + rest[..|rest| - 1]
  {}

  /** Replacing what follows the last slash replaces the last segment. */
  lemma {:induction false} LastSegment(dir: string, base: string) returns (above: seq<string>)
    requires dir == "" || dir[|dir| - 1] == '/'
    requires '/' !in base
    ensures above == Split(dir, '/')[..|Split(dir, '/')| - 1]
    ensures Split(dir + base, '/') == above + [base]
    decreases |dir|
  {
    if dir == "" {
      assert dir + base == base;
      SplitNone(base, '/');
      SplitNone("", '/');
      above := [];
    } else {
      var first, rest := FirstSegment(dir);
      SplitFirst(first, '/', rest);
      SplitFirst(first, '/', rest + base);
      ConcatAssociates(first + ['/'], rest, base);
      var deeper := LastSegment(rest, base);
      above := [first] + deeper;
      ButLast(first, Split(rest, '/'));
      ConcatAssociates([first], deeper, [base]);
    }
  }

  lemma {:induction false} CandidateIsDirPlus(dir: string, middle: string, digits: string, suffix: string)
    ensures (dir + middle) + suffix == dir + (middle + suffix)
    ensures (dir + middle) + "-" + digits + suffix == dir + (middle + ("-" + digits) + suffix)
  {}

  lemma {:induction false} NotInConcat(a: string, b: string, c: string)
    requires '/' !in a && '/' !in b && '/' !in c
    ensures '/' !in a + c && '/' !in a + b + c
  {}

  /** Cutting a name after its last slash, at `m`, and writing a number at `k`. */
  lemma {:induction false} CandidateParts(name: string, m: nat, k: nat, digits: string)
    returns (dir: string, base: string, base': string)
    requires m <= k <= |name| && (m == 0 || name[m - 1] == '/')
    requires '/' !in digits && forall j :: m <= j < |name| ==> name[j] != '/'
    ensures dir == "" || dir[|dir| - 1] == '/'
    ensures name == dir + base && name[..k] + "-" + digits + name[k..] == dir + base'
    ensures '/' !in base && '/' !in base' && '-' in base'
  {
    var middle, suffix := name[m..k], name[k..];
    dir, base, base' := name[..m], middle + suffix, middle + ("-" + digits) + suffix;
    assert name[..k] == dir + middle && name == name[..k] + suffix;
    CandidateIsDirPlus(dir, middle, digits, suffix);
    assert '/' !in middle && '/' !in suffix;
    NotInConcat(middle, "-" + digits, suffix);
    assert base'[|middle|] == '-';
  }

  lemma {:induction false} SameSegmentsAbove(dir: string, base: string, base': string)
    requires dir == "" || dir[|dir| - 1] == '/'
    requires '/' !in base && '/' !in base' && '-' in base' && Safe(dir + base)
    ensures Safe(dir + base')
  {
    var above := LastSegment(dir, base);
    var above' := LastSegment(dir, base');
    if dir + base == "" {
      SplitNone("", '/');
    } else {
      forall i | 0 <= i < |above| ensures above[i] !in UNSAFE { assert Split(dir + base, '/')[i] == above[i]; }
    }
  }

  /** A candidate for a safe name is safe. */
  lemma {:induction false} CandidateIsSafe(name: string, counter: nat)
    requires Safe(name)
    ensures Safe(Candidate(name, counter))
  {
    NoSlashInDecimal(counter);
    var dir, base, base' := CandidateParts(name, LastIndexOf(name, '/') + 1, SuffixStart(name), Decimal(counter));
    SameSegmentsAbove(dir, base, base');
  }

  /** The candidates before a counter. */
  function CandidatesBelow(name: string, counter: nat): set<string> {
    if counter <= 2 then {} else CandidatesBelow(name, counter - 1) + {Candidate(name, counter - 1)}
  }

  lemma {:induction false} CandidateBelow(name: string, d: nat, counter: nat)
    ensures Candidate(name, d) in CandidatesBelow(name, counter) <==> 2 <= d < counter
  {
    if counter > 2 {
      CandidateBelow(name, d, counter - 1);
      if Candidate(name, d) == Candidate(name, counter - 1) { CandidatesDiffer(name, d, counter - 1); }
    }
  }

  /** Pigeonhole: distinct candidates that are all used are no more than the used names. */
  lemma {:induction false} TriedBound(name: string, used: set<string>, counter: nat)
    requires counter >= 2 && CandidatesBelow(name, counter) <= used
    ensures |CandidatesBelow(name, counter)| == counter - 2 <= |used|
  {
    if counter > 2 {
      TriedBound(name, used, counter - 1);
      CandidateBelow(name, counter - 1, counter - 1);
    }
    assert used == CandidatesBelow(name, counter) + (used - CandidatesBelow(name, counter));
  }

  /** The first candidate from `counter` on that is free. */
  ghost function FirstFree(name: string, used: set<string>, counter: nat): string
    requires counter >= 2 && CandidatesBelow(name, counter) <= used
    decreases |used| + 2 - counter
  {
    TriedBound(name, used, counter);
    if Candidate(name, counter) !in used then Candidate(name, counter)
    else
      TriedBound(name, used, counter + 1);
      FirstFree(name, used, counter + 1)
  }

  /** The name an entry gets when the names in `used` are taken. */
  ghost function Deduped(name: string, used: set<string>): string {
    if name !in used then name else FirstFree(name, used, 2)
  }

  lemma {:induction false} FirstFreeIsFirst(name: string, used: set<string>, counter: nat) returns (c: nat)
    requires counter >= 2 && CandidatesBelow(name, counter) <= used
    ensures counter <= c <= |used| + 2 && FirstFree(name, used, counter) == Candidate(name, c)
    ensures Candidate(name, c) !in used
    ensures CandidatesBelow(name, c) <= used
    decreases |used| + 2 - counter
  {
    TriedBound(name, used, counter);
    c := counter;
    if Candidate(name, counter) in used {
      TriedBound(name, used, counter + 1);
      c := FirstFreeIsFirst(name, used, counter + 1);
    }
  }

  /**
   A used name gets the first free number from 2 on, found among one more candidate
   than there are used names; the result is free, and safe if the name is.
   */
  lemma {:induction false} DedupedIsFree(name: string, used: set<string>)
    ensures Deduped(name, used) !in used
    ensures name !in used ==> Deduped(name, used) == name
    ensures name in used ==>
              exists c :: 2 <= c <= |used| + 2 && Deduped(name, used) == Candidate(name, c) &&
                CandidatesBelow(name, c) <= used
    ensures Safe(name) ==> Safe(Deduped(name, used))
  {
    if name in used {
      var c := FirstFreeIsFirst(name, used, 2);
      if Safe(name) { CandidateIsSafe(name, c); }
    }
  }

  // ----- The report builder ------------------------------------------------

  datatype ReportEntry = ReportEntry(archivePath: string, content: seq<int>, sourcePath: Option<string>,
                                     truncated: bool)

  function Paths(entries: seq<ReportEntry>): set<string> { set i | 0 <= i < |entries| :: entries[i].archivePath }

  ghost predicate Distinct(entries: seq<ReportEntry>) {
    forall i, j :: 0 <= i < j < |entries| ==> entries[i].archivePath != entries[j].archivePath
  }

  lemma {:induction false} PathsStep(entries: seq<ReportEntry>, e: ReportEntry)
    ensures Paths(entries + [e]) == Paths(entries) + {e.archivePath}
  {
    var more := entries + [e];
    forall p ensures p in Paths(more) <==> p in Paths(entries) + {e.archivePath} {
      if p in Paths(entries) {
        var i :| 0 <= i < |entries| && entries[i].archivePath == p;
        assert more[i].archivePath == p;
      }
      if p == e.archivePath { assert more[|entries|].archivePath == p; }
    }
  }

  lemma {:induction false} DistinctStep(entries: seq<ReportEntry>, e: ReportEntry)
    requires Distinct(entries) && e.archivePath !in Paths(entries)
    ensures Distinct(entries + [e])
  {}

  class ReportBuilder {
    var entries: seq<ReportEntry>
    var archivePaths: set<string>

    ghost predicate Valid() reads this {
      archivePaths == Paths(entries) && Distinct(entries) && forall p :: p in archivePaths ==> Safe(p)
    }

    constructor ()
      ensures Valid() && entries == []
    {
      entries, archivePaths := [], {};
    }

    /** `_dedupe_archive_path` */
    method DedupeArchivePath(archivePath: string) returns (path: string)
      modifies this`archivePaths
      ensures path == Deduped(archivePath, old(archivePaths))
      ensures archivePaths == old(archivePaths) + {path}
    {
      if archivePath !in archivePaths {
        archivePaths := archivePaths + {archivePath};
        return archivePath;
      }
      var counter := 2;
      path := Candidate(archivePath, counter);
      while path in archivePaths
        invariant counter >= 2 && path == Candidate(archivePath, counter)
        invariant archivePaths == old(archivePaths) && CandidatesBelow(archivePath, counter) <= archivePaths
        invariant Deduped(archivePath, archivePaths) == FirstFree(archivePath, archivePaths, counter)
        decreases |archivePaths| + 2 - counter
      {
        TriedBound(archivePath, archivePaths, counter + 1);
        counter := counter + 1;
        path := Candidate(archivePath, counter);
      }
      archivePaths := archivePaths + {path};
    }

    method AddBytes(archivePath: string, content: seq<int>, sourcePath: Option<string>, truncated: bool)
      requires Valid()
      modifies this
      ensures Valid()
      ensures entries == old(entries) +
                [ReportEntry(Deduped(NormalizeArchivePath(archivePath), old(archivePaths)), content, sourcePath,
                             truncated)]
    {
      NormalizeKeepsSafeSegments(archivePath);
      DedupedIsFree(NormalizeArchivePath(archivePath), archivePaths);
      var path := DedupeArchivePath(NormalizeArchivePath(archivePath));
      var entry := ReportEntry(path, content, sourcePath, truncated);
      PathsStep(entries, entry);
      DistinctStep(entries, entry);
      entries := entries + [entry];
    }
  }
}
