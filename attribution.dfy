/** The specification of the conversion in gobertura.go, as functions on
    values: which blocks a function is credited with, the line records a block
    becomes, the per-file statement totals, and the grouping of functions into
    classes by receiver name. The imperative conversion is proved against
    these definitions. */
module Attribution {
  import opened Cover
  import opened Visitor

  // ---------------------------------------------------------------------
  // Block-to-function attribution (gobertura.go:96-103)
  // ---------------------------------------------------------------------

  function FuncStart(f: FuncDef): Pos { Pos(f.StartLine, f.StartCol) }

  function FuncEnd(f: FuncDef): Pos { Pos(f.EndLine, f.EndCol) }

  /** The condition that ends the scan over a file's blocks for function f:
      the block starts at or after the end of f. */
  predicate EndsScan(b: ProfileBlock, f: FuncDef)
    ensures EndsScan(b, f) <==> !Before(Start(b), FuncEnd(f))
  {
    b.StartLine > f.EndLine || (b.StartLine == f.EndLine && b.StartCol >= f.EndCol)
  }

  /** The condition that skips a block: it ends at or before the start of f. */
  predicate SkippedBefore(b: ProfileBlock, f: FuncDef)
    ensures SkippedBefore(b, f) <==> !Before(FuncStart(f), End(b))
  {
    b.EndLine < f.StartLine || (b.EndLine == f.StartLine && b.EndCol <= f.StartCol)
  }

  /** Half-open span overlap: the block ends after f starts and starts
      before f ends. */
  predicate Overlaps(b: ProfileBlock, f: FuncDef) {
    Before(FuncStart(f), End(b)) && Before(Start(b), FuncEnd(f))
  }

  /** The blocks the scan credits to f, in scan order: a block is skipped when
      it ends at or before f's start, and the scan stops at the first block
      that starts at or after f's end. */
  function Attributed(f: FuncDef, bs: seq<ProfileBlock>): seq<ProfileBlock> {
    if bs == [] || EndsScan(bs[0], f) then []
    else if SkippedBefore(bs[0], f) then Attributed(f, bs[1..])
    else [bs[0]] + Attributed(f, bs[1..])
  }

  /** The scan credits f only with blocks of the file that overlap f. */
  lemma {:induction false} AttributedWithin(f: FuncDef, bs: seq<ProfileBlock>)
    ensures |Attributed(f, bs)| <= |bs|
    ensures forall b :: b in Attributed(f, bs) ==> b in bs && Overlaps(b, f)
  {
    if bs != [] && !EndsScan(bs[0], f) {
      AttributedWithin(f, bs[1..]);
    }
  }

  /** One step of the scan from position i. */
  lemma AttributedFrom(f: FuncDef, bs: seq<ProfileBlock>, i: nat)
    requires i < |bs|
    ensures Attributed(f, bs[i..]) ==
      if EndsScan(bs[i], f) then []
      else if SkippedBefore(bs[i], f) then Attributed(f, bs[i + 1..])
      else [bs[i]] + Attributed(f, bs[i + 1..])
  {
    assert bs[i..][0] == bs[i] && bs[i..][1..] == bs[i + 1..];
  }

  lemma ExpandAllCons(b: ProfileBlock, bs: seq<ProfileBlock>)
    ensures ExpandAll([b] + bs) == Expand(b) + ExpandAll(bs)
  {
    assert ([b] + bs)[0] == b && ([b] + bs)[1..] == bs;
  }

  /** Reference definition: every block that overlaps f, in order. */
  function OverlapFilter(f: FuncDef, bs: seq<ProfileBlock>): seq<ProfileBlock> {
    if bs == [] then []
    else (if Overlaps(bs[0], f) then [bs[0]] else []) + OverlapFilter(f, bs[1..])
  }

  lemma {:induction false} OverlapFilterMembers(f: FuncDef, bs: seq<ProfileBlock>, b: ProfileBlock)
    ensures b in OverlapFilter(f, bs) <==> b in bs && Overlaps(b, f)
  {
    if bs != [] {
      OverlapFilterMembers(f, bs[1..], b);
      assert bs == [bs[0]] + bs[1..];
    }
  }

  /** Once a block of a sorted list starts at or after f's end, no block from
      there on overlaps f. */
  lemma {:induction false} NothingOverlapsPastEnd(f: FuncDef, bs: seq<ProfileBlock>)
    requires SortedByStart(bs) && bs != [] && EndsScan(bs[0], f)
    ensures OverlapFilter(f, bs) == []
  {
    if |bs| > 1 {
      assert !Before(Start(bs[1]), Start(bs[0]));
      SortedTail(bs);
      NothingOverlapsPastEnd(f, bs[1..]);
    }
  }

  lemma SortedTail(bs: seq<ProfileBlock>)
    requires SortedByStart(bs) && bs != []
    ensures SortedByStart(bs[1..])
  {
    forall i, j | 0 <= i < j < |bs[1..]|
      ensures !Before(Start(bs[1..][j]), Start(bs[1..][i]))
    {
      assert bs[1..][j] == bs[j + 1] && bs[1..][i] == bs[i + 1];
    }
  }

  /** On position-sorted blocks the early-stopping scan credits f with
      exactly the blocks that overlap it, in order. */
  lemma {:induction false} ScanIsOverlapFilter(f: FuncDef, bs: seq<ProfileBlock>)
    requires SortedByStart(bs)
    ensures Attributed(f, bs) == OverlapFilter(f, bs)
  {
    if bs == [] {
    } else if EndsScan(bs[0], f) {
      NothingOverlapsPastEnd(f, bs);
    } else {
      SortedTail(bs);
      ScanIsOverlapFilter(f, bs[1..]);
    }
  }

  /** On position-sorted blocks, a block contributes to f iff it ends after
      f's start and starts before f's end. */
  lemma AttributedIffOverlaps(f: FuncDef, bs: seq<ProfileBlock>, b: ProfileBlock)
    requires SortedByStart(bs) && b in bs
    ensures b in Attributed(f, bs) <==> Overlaps(b, f)
  {
    ScanIsOverlapFilter(f, bs);
    OverlapFilterMembers(f, bs, b);
  }

  // ---------------------------------------------------------------------
  // Line expansion (gobertura.go:105-114)
  // ---------------------------------------------------------------------

  /** The value of one line record. */
  datatype LineV = LineV(Number: int, Hits: int, Branch: bool)

  /** n records numbered start, start+1, ..., start+n-1. */
  function LineRun(start: int, hits: int, n: nat): seq<LineV> {
    if n == 0 then [] else LineRun(start, hits, n - 1) + [LineV(start + n - 1, hits, false)]
  }

  /** How often the expansion loop runs: NumStmt times, or not at all when
      NumStmt is not positive. */
  function StmtCount(b: ProfileBlock): nat {
    if b.NumStmt > 0 then b.NumStmt else 0
  }

  /** The line records a credited block becomes. */
  function Expand(b: ProfileBlock): seq<LineV> {
    LineRun(b.StartLine, b.Count, StmtCount(b))
  }

  lemma {:induction false} LineRunAt(start: int, hits: int, n: nat)
    ensures |LineRun(start, hits, n)| == n
    ensures forall k :: 0 <= k < n ==> LineRun(start, hits, n)[k] == LineV(start + k, hits, false)
  {
    if n > 0 {
      LineRunAt(start, hits, n - 1);
    }
  }

  /** A block with NumStmt = N yields exactly N records numbered StartLine+i
      for i in [0, N), each with the block's count as hits and no branch. */
  lemma ExpandNumbering(b: ProfileBlock)
    ensures |Expand(b)| == StmtCount(b)
    ensures forall k :: 0 <= k < StmtCount(b) ==> Expand(b)[k] == LineV(b.StartLine + k, b.Count, false)
  {
    LineRunAt(b.StartLine, b.Count, StmtCount(b));
  }

  /** The expansion never looks at where the block ends. */
  lemma ExpandIgnoresEnd(b: ProfileBlock, endLine: int, endCol: int)
    ensures Expand(b) == Expand(b.(EndLine := endLine, EndCol := endCol))
  {
  }

  /** The records of a list of blocks, block after block. */
  function ExpandAll(bs: seq<ProfileBlock>): seq<LineV> {
    if bs == [] then [] else Expand(bs[0]) + ExpandAll(bs[1..])
  }

  /** The line records of the method made for f. */
  function MethodLines(f: FuncDef, bs: seq<ProfileBlock>): seq<LineV> {
    ExpandAll(Attributed(f, bs))
  }

  // ---------------------------------------------------------------------
  // Counting
  // ---------------------------------------------------------------------

  /** The number of records with a positive hit count. */
  function HitCount(ls: seq<LineV>): (n: nat)
    ensures n <= |ls|
  {
    if ls == [] then 0
    else HitCount(ls[..|ls| - 1]) + (if ls[|ls| - 1].Hits > 0 then 1 else 0)
  }

  lemma {:induction false} HitCountAppend(a: seq<LineV>, b: seq<LineV>)
    ensures HitCount(a + b) == HitCount(a) + HitCount(b)
  {
    if b == [] {
      assert a + b == a;
    } else {
      HitCountAppend(a, b[..|b| - 1]);
      assert (a + b)[..|a + b| - 1] == a + b[..|b| - 1];
    }
  }

  lemma {:induction false} LineRunHits(start: int, hits: int, n: nat)
    ensures HitCount(LineRun(start, hits, n)) == if hits > 0 then n else 0
  {
    if n > 0 {
      LineRunHits(start, hits, n - 1);
      var run := LineRun(start, hits, n);
      assert run[..|run| - 1] == LineRun(start, hits, n - 1);
    }
  }

  /** The sum of the statement counts of a list of blocks. */
  function TotalStmts(bs: seq<ProfileBlock>): int {
    if bs == [] then 0 else bs[0].NumStmt + TotalStmts(bs[1..])
  }

  /** The sum of the statement counts of the blocks that ran at least once. */
  function CoveredStmts(bs: seq<ProfileBlock>): int {
    if bs == [] then 0
    else (if bs[0].Count > 0 then bs[0].NumStmt else 0) + CoveredStmts(bs[1..])
  }

  lemma {:induction false} TotalsAppend(bs: seq<ProfileBlock>, b: ProfileBlock)
    ensures TotalStmts(bs + [b]) == TotalStmts(bs) + b.NumStmt
    ensures CoveredStmts(bs + [b]) == CoveredStmts(bs) + (if b.Count > 0 then b.NumStmt else 0)
  {
    if bs == [] {
      assert [b][1..] == [];
    } else {
      TotalsAppend(bs[1..], b);
      assert (bs + [b])[1..] == bs[1..] + [b];
    }
  }

  /** With non-negative statement counts, covered never exceeds total. */
  lemma {:induction false} CoveredWithinTotal(bs: seq<ProfileBlock>)
    requires NonNegative(bs)
    ensures 0 <= CoveredStmts(bs) <= TotalStmts(bs)
  {
    if bs != [] {
      assert bs[0] in bs;
      assert NonNegative(bs[1..]) by {
        forall b | b in bs[1..] ensures b.NumStmt >= 0 { assert b in bs; }
      }
      CoveredWithinTotal(bs[1..]);
    }
  }

  /** Expanding blocks with non-negative statement counts yields one record
      per statement, and one record with positive hits per statement of a
      block that ran. */
  lemma {:induction false} ExpandAllCounts(bs: seq<ProfileBlock>)
    requires NonNegative(bs)
    ensures |ExpandAll(bs)| == TotalStmts(bs)
    ensures HitCount(ExpandAll(bs)) == CoveredStmts(bs)
  {
    if bs != [] {
      assert bs[0] in bs;
      assert NonNegative(bs[1..]) by {
        forall b | b in bs[1..] ensures b.NumStmt >= 0 { assert b in bs; }
      }
      ExpandAllCounts(bs[1..]);
      LineRunAt(bs[0].StartLine, bs[0].Count, StmtCount(bs[0]));
      LineRunHits(bs[0].StartLine, bs[0].Count, StmtCount(bs[0]));
      HitCountAppend(Expand(bs[0]), ExpandAll(bs[1..]));
    }
  }

  /** The covered-statement total of one file as profileCoverage returns it
      (gobertura.go:31-34): zero when the file's statement total is zero. */
  function FileCovered(bs: seq<ProfileBlock>): int {
    if TotalStmts(bs) == 0 then 0 else CoveredStmts(bs)
  }

  /** For a file with non-negative statement counts the zero-total guard
      changes nothing, and covered stays within [0, total]. */
  lemma FileCoveredWithinTotal(bs: seq<ProfileBlock>)
    requires NonNegative(bs)
    ensures FileCovered(bs) == CoveredStmts(bs)
    ensures 0 <= FileCovered(bs) <= TotalStmts(bs)
  {
    CoveredWithinTotal(bs);
  }

  /** Report LinesValid: the statement totals of all files, in order. */
  function ReportValid(ps: seq<Profile>): int {
    if ps == [] then 0 else ReportValid(ps[..|ps| - 1]) + TotalStmts(ps[|ps| - 1].Blocks)
  }

  /** Report LinesCovered: the covered totals of all files, in order. */
  function ReportCovered(ps: seq<Profile>): int {
    if ps == [] then 0 else ReportCovered(ps[..|ps| - 1]) + FileCovered(ps[|ps| - 1].Blocks)
  }

  /** Every file's blocks have non-negative statement counts. */
  predicate AllNonNegative(ps: seq<Profile>) {
    forall p :: p in ps ==> NonNegative(p.Blocks)
  }

  /** The report never counts more covered lines than valid ones. */
  lemma {:induction false} ReportCoveredWithinValid(ps: seq<Profile>)
    requires AllNonNegative(ps)
    ensures 0 <= ReportCovered(ps) <= ReportValid(ps)
  {
    if ps != [] {
      var last := ps[|ps| - 1];
      assert last in ps;
      assert AllNonNegative(ps[..|ps| - 1]) by {
        forall p | p in ps[..|ps| - 1] ensures NonNegative(p.Blocks) { assert p in ps; }
      }
      ReportCoveredWithinValid(ps[..|ps| - 1]);
      FileCoveredWithinTotal(last.Blocks);
    }
  }

  // ---------------------------------------------------------------------
  // Grouping into classes and methods (gobertura.go:68, 78-118)
  // ---------------------------------------------------------------------

  /** The value of one method: its name and line records. */
  datatype MethodV = MethodV(Name: string, Lines: seq<LineV>)

  /** The value of one class: its receiver name, its file and its methods. */
  datatype ClassV = ClassV(Name: string, Filename: string, Methods: seq<MethodV>)

  /** No name occurs twice. */
  predicate Distinct(rs: seq<string>) {
    forall i, j :: 0 <= i < j < |rs| ==> rs[i] != rs[j]
  }

  /** The distinct receiver names of fs, in first-seen order. */
  function Receivers(fs: seq<FuncDef>): (rs: seq<string>)
    ensures Distinct(rs)
  {
    if fs == [] then []
    else
      var rs := Receivers(fs[..|fs| - 1]);
      var r := fs[|fs| - 1].Receiver;
      if r in rs then rs else rs + [r]
  }

  /** A name is among the receivers of fs iff some function of fs has it. */
  lemma {:induction false} ReceiversCover(fs: seq<FuncDef>, r: string)
    ensures r in Receivers(fs) <==> exists f :: f in fs && f.Receiver == r
  {
    if fs != [] {
      var init := fs[..|fs| - 1];
      assert fs == init + [fs[|fs| - 1]];
      ReceiversCover(init, r);
    }
  }

  /** The methods of the class for receiver r: one per function of fs with
      that receiver, in declaration order. */
  function MethodsOf(r: string, fs: seq<FuncDef>, bs: seq<ProfileBlock>): (ms: seq<MethodV>)
  {
    if fs == [] then []
    else
      var f := fs[|fs| - 1];
      var ms := MethodsOf(r, fs[..|fs| - 1], bs);
      if f.Receiver == r then ms + [MethodV(f.Name, MethodLines(f, bs))] else ms
  }

  /** The classes made for one file, in first-seen order of their receivers. */
  function FileClasses(p: Profile, fs: seq<FuncDef>): seq<ClassV> {
    var rs := Receivers(fs);
    seq(|rs|, j requires 0 <= j < |rs| => ClassV(rs[j], p.FileName, MethodsOf(rs[j], fs, p.Blocks)))
  }

  /** Within one file there is one class per distinct receiver name, named
      after it and carrying the profile's file name, and none of them is
      without methods. */
  lemma FileClassesShape(p: Profile, fs: seq<FuncDef>)
    ensures |FileClasses(p, fs)| == |Receivers(fs)|
    ensures forall j, k :: 0 <= j < k < |FileClasses(p, fs)| ==> FileClasses(p, fs)[j].Name != FileClasses(p, fs)[k].Name
    ensures forall f :: f in fs ==> exists j :: 0 <= j < |FileClasses(p, fs)| && FileClasses(p, fs)[j].Name == f.Receiver
    ensures forall c :: c in FileClasses(p, fs) ==> c.Filename == p.FileName && c.Methods != []
  {
    var cs := FileClasses(p, fs);
    var rs := Receivers(fs);
    forall j | 0 <= j < |rs|
      ensures cs[j].Methods != []
    {
      MethodsOfPresent(rs[j], fs, p.Blocks);
    }
    forall f | f in fs
      ensures exists j :: 0 <= j < |cs| && cs[j].Name == f.Receiver
    {
      ReceiversCover(fs, f.Receiver);
      assert f.Receiver in rs;
      var j :| 0 <= j < |rs| && rs[j] == f.Receiver;
      assert cs[j].Name == f.Receiver;
    }
  }

  lemma ReceiversStep(fs: seq<FuncDef>, f: FuncDef)
    ensures Receivers(fs + [f]) ==
      if f.Receiver in Receivers(fs) then Receivers(fs) else Receivers(fs) + [f.Receiver]
  {
    assert (fs + [f])[..|fs|] == fs;
  }

  lemma MethodsOfStep(r: string, fs: seq<FuncDef>, f: FuncDef, bs: seq<ProfileBlock>)
    ensures MethodsOf(r, fs + [f], bs) ==
      if f.Receiver == r then MethodsOf(r, fs, bs) + [MethodV(f.Name, MethodLines(f, bs))] else MethodsOf(r, fs, bs)
  {
    assert (fs + [f])[..|fs|] == fs;
  }

  /** A receiver no function has gets no methods. */
  lemma {:induction false} MethodsOfAbsent(r: string, fs: seq<FuncDef>, bs: seq<ProfileBlock>)
    requires r !in Receivers(fs)
    ensures MethodsOf(r, fs, bs) == []
  {
    if fs != [] {
      ReceiversStep(fs[..|fs| - 1], fs[|fs| - 1]);
      assert fs[..|fs| - 1] + [fs[|fs| - 1]] == fs;
      MethodsOfAbsent(r, fs[..|fs| - 1], bs);
    }
  }

  /** A receiver some function has gets at least one method. */
  lemma {:induction false} MethodsOfPresent(r: string, fs: seq<FuncDef>, bs: seq<ProfileBlock>)
    requires r in Receivers(fs)
    ensures MethodsOf(r, fs, bs) != []
  {
    var init := fs[..|fs| - 1];
    ReceiversStep(init, fs[|fs| - 1]);
    assert init + [fs[|fs| - 1]] == fs;
    if fs[|fs| - 1].Receiver != r {
      MethodsOfPresent(r, init, bs);
    }
  }

  /** No two classes share a name. */
  predicate DistinctNames(vs: seq<ClassV>) {
    forall j, k :: 0 <= j < k < |vs| ==> vs[j].Name != vs[k].Name
  }

  /** The position of the class named r, or |vs| when there is none. */
  function ClassIndex(vs: seq<ClassV>, r: string): (k: nat)
    ensures k <= |vs|
    ensures k < |vs| ==> vs[k].Name == r
    ensures k == |vs| <==> forall j :: 0 <= j < |vs| ==> vs[j].Name != r
  {
    if vs == [] then 0
    else
      var k := ClassIndex(vs[..|vs| - 1], r);
      if k < |vs| - 1 || vs[|vs| - 1].Name == r then k else |vs|
  }

  lemma ClassIndexAppend(vs: seq<ClassV>, v: ClassV, r: string)
    ensures ClassIndex(vs + [v], r) == if ClassIndex(vs, r) < |vs| || v.Name == r then ClassIndex(vs, r) else |vs| + 1
  {
    assert (vs + [v])[..|vs|] == vs;
  }

  /** The position of a name depends on the names alone. */
  lemma {:induction false} ClassIndexSameNames(vs: seq<ClassV>, ws: seq<ClassV>, r: string)
    requires |vs| == |ws| && forall j :: 0 <= j < |vs| ==> vs[j].Name == ws[j].Name
    ensures ClassIndex(vs, r) == ClassIndex(ws, r)
  {
    if vs != [] {
      ClassIndexSameNames(vs[..|vs| - 1], ws[..|ws| - 1], r);
    }
  }

  /** The classes vs with one for receiver r: vs itself when it has one,
      else vs and a new empty class of file `file`. */
  function WithClass(vs: seq<ClassV>, file: string, r: string): (us: seq<ClassV>)
    ensures ClassIndex(vs, r) < |us|
    ensures us[ClassIndex(vs, r)].Name == r
    ensures DistinctNames(vs) ==> DistinctNames(us)
  {
    if ClassIndex(vs, r) < |vs| then vs else vs + [ClassV(r, file, [])]
  }

  /** What handling function f does to the classes vs of file `file`
      (gobertura.go:79-117): f's method goes at the end of the class of its
      receiver, which is made and appended first when there is none. */
  function Inserted(vs: seq<ClassV>, file: string, f: FuncDef, bs: seq<ProfileBlock>): seq<ClassV> {
    var k := ClassIndex(vs, f.Receiver);
    var m := MethodV(f.Name, MethodLines(f, bs));
    if k < |vs| then vs[k := vs[k].(Methods := vs[k].Methods + [m])]
    else vs + [ClassV(f.Receiver, file, [m])]
  }

  /** Inserting f is appending its method to the class at the receiver's
      position in WithClass. */
  lemma InsertedWithClass(vs: seq<ClassV>, file: string, f: FuncDef, bs: seq<ProfileBlock>)
    ensures var us, k := WithClass(vs, file, f.Receiver), ClassIndex(vs, f.Receiver);
      Inserted(vs, file, f, bs) == us[k := us[k].(Methods := us[k].Methods + [MethodV(f.Name, MethodLines(f, bs))])]
  {
    var m := MethodV(f.Name, MethodLines(f, bs));
    if ClassIndex(vs, f.Receiver) == |vs| {
      var c := ClassV(f.Receiver, file, []);
      assert WithClass(vs, file, f.Receiver) == vs + [c];
      assert c.Methods + [m] == [m];
      ReplaceLast(vs, c, c.(Methods := c.Methods + [m]));
    }
  }

  lemma ReplaceLast<T>(xs: seq<T>, x: T, y: T)
    ensures (xs + [x])[|xs| := y] == xs + [y]
  {
  }

  /** Grouping by receivers is the same as inserting the functions one by
      one: the class values of a file grow exactly as the loop makes them. */
  lemma FileClassesStep(p: Profile, fs: seq<FuncDef>, f: FuncDef)
    ensures FileClasses(p, fs + [f]) == Inserted(FileClasses(p, fs), p.FileName, f, p.Blocks)
  {
    if f.Receiver in Receivers(fs) {
      FileClassesStepOld(p, fs, f);
    } else {
      FileClassesStepNew(p, fs, f);
    }
  }

  /** FileClassesStep for a receiver already seen: its class gains f's
      method, the others stay. */
  lemma FileClassesStepOld(p: Profile, fs: seq<FuncDef>, f: FuncDef)
    requires f.Receiver in Receivers(fs)
    ensures FileClasses(p, fs + [f]) == Inserted(FileClasses(p, fs), p.FileName, f, p.Blocks)
  {
    var vs, ws := FileClasses(p, fs), FileClasses(p, fs + [f]);
    var rs := Receivers(fs);
    var m := MethodV(f.Name, MethodLines(f, p.Blocks));
    ReceiversStep(fs, f);
    var k := ClassIndex(vs, f.Receiver);
    var i :| 0 <= i < |rs| && rs[i] == f.Receiver;
    assert vs[i].Name == f.Receiver;
    forall j | 0 <= j < |rs|
      ensures ws[j] == if j == k then vs[j].(Methods := vs[j].Methods + [m]) else vs[j]
    {
      MethodsOfStep(rs[j], fs, f, p.Blocks);
      if j != k {
        assert rs[j] != rs[k];
      }
    }
    assert ws == vs[k := vs[k].(Methods := vs[k].Methods + [m])];
  }

  /** FileClassesStep for a new receiver: a class holding just f's method
      joins at the end. */
  lemma FileClassesStepNew(p: Profile, fs: seq<FuncDef>, f: FuncDef)
    requires f.Receiver !in Receivers(fs)
    ensures FileClasses(p, fs + [f]) == Inserted(FileClasses(p, fs), p.FileName, f, p.Blocks)
  {
    var vs, ws := FileClasses(p, fs), FileClasses(p, fs + [f]);
    var rs := Receivers(fs);
    var m := MethodV(f.Name, MethodLines(f, p.Blocks));
    ReceiversStep(fs, f);
    forall j | 0 <= j < |rs|
      ensures ws[j] == vs[j]
    {
      MethodsOfStep(rs[j], fs, f, p.Blocks);
    }
    MethodsOfStep(f.Receiver, fs, f, p.Blocks);
    MethodsOfAbsent(f.Receiver, fs, p.Blocks);
    assert ws[|rs|] == ClassV(f.Receiver, p.FileName, [m]);
    assert ws == vs + [ClassV(f.Receiver, p.FileName, [m])];
    assert ClassIndex(vs, f.Receiver) == |vs|;
  }

  /** The class values of a file have distinct names. */
  lemma FileClassesDistinct(p: Profile, fs: seq<FuncDef>)
    ensures DistinctNames(FileClasses(p, fs))
  {
  }

  /** The classes of a file as the loop of gobertura.go:78-118 builds
      them: the functions inserted one by one, in declaration order. */
  function Grouped(p: Profile, fs: seq<FuncDef>): seq<ClassV> {
    if fs == [] then []
    else Inserted(Grouped(p, fs[..|fs| - 1]), p.FileName, fs[|fs| - 1], p.Blocks)
  }

  /** Inserting the functions one by one yields the grouping by receivers. */
  lemma {:induction false} GroupedIsFileClasses(p: Profile, fs: seq<FuncDef>)
    ensures Grouped(p, fs) == FileClasses(p, fs)
  {
    if fs != [] {
      var init := fs[..|fs| - 1];
      assert fs == init + [fs[|fs| - 1]];
      GroupedIsFileClasses(p, init);
      FileClassesStep(p, init, fs[|fs| - 1]);
    }
  }

  /** The classes built so far have distinct names. */
  lemma GroupedDistinct(p: Profile, fs: seq<FuncDef>)
    ensures DistinctNames(Grouped(p, fs))
  {
    GroupedIsFileClasses(p, fs);
    FileClassesDistinct(p, fs);
  }

  /** The classes of all files, file after file. The class map is fresh for
      every file, so a receiver seen in two files gives two classes. */
  function AllClasses(ps: seq<Profile>, findFuncs: string -> seq<FuncDef>): seq<ClassV> {
    if ps == [] then []
    else
      var last := ps[|ps| - 1];
      AllClasses(ps[..|ps| - 1], findFuncs) + FileClasses(last, findFuncs(last.FileName))
  }

  /** The number of classes is the sum over the files of the number of
      distinct receivers in each. */
  function ClassCount(ps: seq<Profile>, findFuncs: string -> seq<FuncDef>): nat {
    if ps == [] then 0
    else
      var last := ps[|ps| - 1];
      ClassCount(ps[..|ps| - 1], findFuncs) + |Receivers(findFuncs(last.FileName))|
  }

  /** Taking one more file appends that file's classes. */
  lemma AllClassesStep(ps: seq<Profile>, i: nat, findFuncs: string -> seq<FuncDef>)
    requires i < |ps|
    ensures AllClasses(ps[..i + 1], findFuncs) == AllClasses(ps[..i], findFuncs) + FileClasses(ps[i], findFuncs(ps[i].FileName))
  {
    assert ps[..i + 1][..i] == ps[..i];
  }

  lemma {:induction false} AllClassesCount(ps: seq<Profile>, findFuncs: string -> seq<FuncDef>)
    ensures |AllClasses(ps, findFuncs)| == ClassCount(ps, findFuncs)
  {
    if ps != [] {
      AllClassesCount(ps[..|ps| - 1], findFuncs);
      FileClassesShape(ps[|ps| - 1], findFuncs(ps[|ps| - 1].FileName));
    }
  }

  /** All the line records of a class: its methods' records, in order. */
  function FlattenLines(ms: seq<MethodV>): seq<LineV> {
    if ms == [] then [] else FlattenLines(ms[..|ms| - 1]) + ms[|ms| - 1].Lines
  }

  /** The number of methods over a list of classes. */
  function MethodTotal(cs: seq<ClassV>): nat {
    if cs == [] then 0 else MethodTotal(cs[..|cs| - 1]) + |cs[|cs| - 1].Methods|
  }

  /** Every function contributes its method to the class of its receiver. */
  lemma {:induction false} MethodOfEveryFunction(fs: seq<FuncDef>, bs: seq<ProfileBlock>, i: nat)
    requires i < |fs|
    ensures MethodV(fs[i].Name, MethodLines(fs[i], bs)) in MethodsOf(fs[i].Receiver, fs, bs)
  {
    var init := fs[..|fs| - 1];
    if i < |fs| - 1 {
      assert fs[i] == init[i];
      MethodOfEveryFunction(init, bs, i);
    }
  }

  /** The methods of the classes for the receivers rs, added up. */
  function MethodSum(rs: seq<string>, fs: seq<FuncDef>, bs: seq<ProfileBlock>): nat {
    if rs == [] then 0 else MethodSum(rs[..|rs| - 1], fs, bs) + |MethodsOf(rs[|rs| - 1], fs, bs)|
  }

  function Occurrences(x: string, rs: seq<string>): nat {
    if rs == [] then 0 else Occurrences(x, rs[..|rs| - 1]) + (if rs[|rs| - 1] == x then 1 else 0)
  }

  lemma {:induction false} OccurrencesOfDistinct(x: string, rs: seq<string>)
    requires Distinct(rs)
    ensures Occurrences(x, rs) == if x in rs then 1 else 0
  {
    if rs != [] {
      var init := rs[..|rs| - 1];
      assert rs == init + [rs[|rs| - 1]];
      assert Distinct(init);
      OccurrencesOfDistinct(x, init);
    }
  }

  lemma {:induction false} MethodSumNoFunctions(rs: seq<string>, bs: seq<ProfileBlock>)
    ensures MethodSum(rs, [], bs) == 0
  {
    if rs != [] {
      MethodSumNoFunctions(rs[..|rs| - 1], bs);
    }
  }

  lemma {:induction false} MethodSumStep(rs: seq<string>, fs: seq<FuncDef>, f: FuncDef, bs: seq<ProfileBlock>)
    ensures MethodSum(rs, fs + [f], bs) == MethodSum(rs, fs, bs) + Occurrences(f.Receiver, rs)
  {
    if rs != [] {
      MethodSumStep(rs[..|rs| - 1], fs, f, bs);
      assert (fs + [f])[..|fs + [f]| - 1] == fs;
    }
  }

  lemma {:induction false} MethodSumCountsFunctions(rs: seq<string>, fs: seq<FuncDef>, bs: seq<ProfileBlock>)
    requires Distinct(rs)
    requires forall f :: f in fs ==> f.Receiver in rs
    ensures MethodSum(rs, fs, bs) == |fs|
  {
    if fs == [] {
      MethodSumNoFunctions(rs, bs);
    } else {
      var init, f := fs[..|fs| - 1], fs[|fs| - 1];
      assert fs == init + [f];
      assert f in fs;
      MethodSumCountsFunctions(rs, init, bs);
      MethodSumStep(rs, init, f, bs);
      OccurrencesOfDistinct(f.Receiver, rs);
    }
  }

  lemma {:induction false} MethodTotalIsSum(cs: seq<ClassV>, rs: seq<string>, fs: seq<FuncDef>, bs: seq<ProfileBlock>)
    requires |cs| == |rs|
    requires forall j :: 0 <= j < |cs| ==> |cs[j].Methods| == |MethodsOf(rs[j], fs, bs)|
    ensures MethodTotal(cs) == MethodSum(rs, fs, bs)
  {
    if cs != [] {
      MethodTotalIsSum(cs[..|cs| - 1], rs[..|rs| - 1], fs, bs);
    }
  }

  /** Every function of a file yields exactly one method among that file's
      classes. */
  lemma OneMethodPerFunction(p: Profile, fs: seq<FuncDef>)
    ensures MethodTotal(FileClasses(p, fs)) == |fs|
  {
    var rs := Receivers(fs);
    MethodTotalIsSum(FileClasses(p, fs), rs, fs, p.Blocks);
    forall f | f in fs ensures f.Receiver in rs {
      ReceiversCover(fs, f.Receiver);
    }
    MethodSumCountsFunctions(rs, fs, p.Blocks);
  }

  lemma {:induction false} MethodTotalAppend(cs: seq<ClassV>, ds: seq<ClassV>)
    ensures MethodTotal(cs + ds) == MethodTotal(cs) + MethodTotal(ds)
  {
    if ds == [] {
      assert cs + ds == cs;
    } else {
      MethodTotalAppend(cs, ds[..|ds| - 1]);
      assert (cs + ds)[..|cs + ds| - 1] == cs + ds[..|ds| - 1];
    }
  }

  /** The number of function declarations over all files. */
  function FuncCount(ps: seq<Profile>, findFuncs: string -> seq<FuncDef>): nat {
    if ps == [] then 0
    else FuncCount(ps[..|ps| - 1], findFuncs) + |findFuncs(ps[|ps| - 1].FileName)|
  }

  /** Over the whole report, there are exactly as many methods as function
      declarations in the processed files. */
  lemma {:induction false} OneMethodPerDeclaration(ps: seq<Profile>, findFuncs: string -> seq<FuncDef>)
    ensures MethodTotal(AllClasses(ps, findFuncs)) == FuncCount(ps, findFuncs)
  {
    if ps != [] {
      var last := ps[|ps| - 1];
      OneMethodPerDeclaration(ps[..|ps| - 1], findFuncs);
      OneMethodPerFunction(last, findFuncs(last.FileName));
      MethodTotalAppend(AllClasses(ps[..|ps| - 1], findFuncs), FileClasses(last, findFuncs(last.FileName)));
    }
  }

  /** With non-negative statement counts a method has one record per
      statement of its credited blocks, and one hit record per statement of
      a credited block that ran. */
  lemma MethodLinesFromBlocks(f: FuncDef, bs: seq<ProfileBlock>)
    requires NonNegative(bs)
    ensures |MethodLines(f, bs)| == TotalStmts(Attributed(f, bs))
    ensures HitCount(MethodLines(f, bs)) == CoveredStmts(Attributed(f, bs))
  {
    AttributedWithin(f, bs);
    ExpandAllCounts(Attributed(f, bs));
  }

  /** A file with a single function has a single class, of that
      function's receiver, holding that function's method. */
  lemma OneFunctionClasses(p: Profile, f: FuncDef)
    ensures FileClasses(p, [f]) == [ClassV(f.Receiver, p.FileName, [MethodV(f.Name, MethodLines(f, p.Blocks))])]
  {
    assert [f][..0] == [];
    assert Receivers([f]) == [f.Receiver];
    assert MethodsOf(f.Receiver, [f], p.Blocks) == [MethodV(f.Name, MethodLines(f, p.Blocks))];
    assert FileClasses(p, [f])[0] == ClassV(f.Receiver, p.FileName, [MethodV(f.Name, MethodLines(f, p.Blocks))]);
  }

  /** The block and the function of SingleBlockScenario: the block is
      credited in full, one record per statement. */
  lemma SingleBlockLines(b: ProfileBlock, f: FuncDef)
    requires b == ProfileBlock(10, 1, 21, 2, 3, 5) && f == FuncDef("F", "pkg/f.go", NoReceiver, 10, 1, 20, 3)
    ensures MethodLines(f, [b]) == [LineV(10, 5, false), LineV(11, 5, false), LineV(12, 5, false)]
  {
    assert Attributed(f, [b]) == [b];
    assert Expand(b) == [LineV(10, 5, false), LineV(11, 5, false), LineV(12, 5, false)] by {
      LineRunAt(10, 5, 3);
    }
    assert ExpandAll([b]) == Expand(b);
  }

  /** One file, one block from (10,1) to (21,2) with three statements run
      five times, and one function spanning (10,1) to (20,3): the function's
      method gets lines 10, 11 and 12, each with five hits. */
  lemma SingleBlockScenario()
    ensures
      var b := ProfileBlock(10, 1, 21, 2, 3, 5);
      var f := FuncDef("F", "pkg/f.go", NoReceiver, 10, 1, 20, 3);
      var cs := FileClasses(Profile("pkg/f.go", [b]), [f]);
      && cs == [ClassV(NoReceiver, "pkg/f.go", [MethodV("F", [LineV(10, 5, false), LineV(11, 5, false), LineV(12, 5, false)])])]
      && HitCount(FlattenLines(cs[0].Methods)) == |FlattenLines(cs[0].Methods)| == 3
  {
    var b := ProfileBlock(10, 1, 21, 2, 3, 5);
    var f := FuncDef("F", "pkg/f.go", NoReceiver, 10, 1, 20, 3);
    var ls := [LineV(10, 5, false), LineV(11, 5, false), LineV(12, 5, false)];
    SingleBlockLines(b, f);
    OneFunctionClasses(Profile("pkg/f.go", [b]), f);
    assert FlattenLines([MethodV("F", ls)]) == ls;
    assert HitCount(ls) == 3;
  }

  /** The same receiver in two files gives two classes, one per file. */
  lemma SameReceiverTwoFiles(t: string, f1: FuncDef, f2: FuncDef, findFuncs: string -> seq<FuncDef>)
    requires f1.Receiver == t && f2.Receiver == t
    requires findFuncs("a/x.go") == [f1] && findFuncs("a/y.go") == [f2]
    ensures
      var cs := AllClasses([Profile("a/x.go", []), Profile("a/y.go", [])], findFuncs);
      |cs| == 2 && cs[0].Name == t && cs[1].Name == t && cs[0].Filename == "a/x.go" && cs[1].Filename == "a/y.go"
  {
    var ps := [Profile("a/x.go", []), Profile("a/y.go", [])];
    assert ps[..1] == [Profile("a/x.go", [])];
    assert ps[..1][..0] == [];
    assert Receivers([f1]) == [t];
    assert Receivers([f2]) == [t];
  }
}
