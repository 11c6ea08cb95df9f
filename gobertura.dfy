/** gobertura.go: the conversion of a coverage profile into the report
    hierarchy. The command line, the XML encoder, the profile parser, the
    clock and FindFuncs are outside this model: the parsed profiles, the
    timestamp and the declaration source are parameters. */
module Gobertura {
  import opened Cover
  import opened Visitor
  import opened Attribution
  import opened Model

  // ---------------------------------------------------------------------
  // PackageName (gobertura.go:159-161), over slash-separated paths
  // ---------------------------------------------------------------------

  /** The index of the last '/' in s, or -1 when there is none. */
  function LastSlash(s: string): (r: int)
    ensures -1 <= r < |s|
    ensures r >= 0 ==> s[r] == '/'
    ensures forall k :: r < k < |s| ==> s[k] != '/'
  {
    if |s| == 0 then -1
    else if s[|s| - 1] == '/' then |s| - 1
    else LastSlash(s[..|s| - 1])
  }

  /** s without its trailing slashes. */
  function TrimTrailingSlashes(s: string): (t: string)
    ensures t <= s
    ensures t == [] || t[|t| - 1] != '/'
    ensures forall k :: |t| <= k < |s| ==> s[k] == '/'
  {
    if |s| > 0 && s[|s| - 1] == '/' then TrimTrailingSlashes(s[..|s| - 1]) else s
  }

  /** The part of filepath.Clean modelled here: trailing slashes removed,
      "." for the empty path, "/" for a path made only of slashes. Repeated
      slashes are kept and "." and ".." elements are not resolved. */
  function Clean(s: string): (r: string)
    ensures r != ""
  {
    if s == "" then "."
    else
      var t := TrimTrailingSlashes(s);
      if t == "" then "/" else t
  }

  /** filepath.Dir on slash paths: everything up to the last slash, with
      trailing slashes removed by Clean. */
  function Dir(path: string): string {
    Clean(path[..LastSlash(path) + 1])
  }

  /** The part of t after its last slash: empty when t is empty or ends
      in a slash. */
  function LastElement(t: string): (r: string)
    ensures '/' !in r
    ensures r == [] <==> t == [] || t[|t| - 1] == '/'
  {
    if t == [] || t[|t| - 1] == '/' then [] else LastElement(t[..|t| - 1]) + [t[|t| - 1]]
  }

  /** filepath.Base: the last element after trailing slashes are removed;
      "." for the empty path and "/" for a path made only of slashes. */
  function Base(path: string): (r: string)
    ensures r != ""
  {
    if path == "" then "."
    else
      var t := TrimTrailingSlashes(path);
      if t == "" then "/" else LastElement(t)
  }

  /** The package name: the base of the profile file's directory. It is
      never empty, which is why the package name is computed only once. */
  function PackageName(fileName: string): (r: string)
    ensures r != ""
  {
    Base(Dir(fileName))
  }

  lemma {:induction false} LastSlashPastSlashFree(s: string, t: string)
    requires '/' !in t
    ensures LastSlash(s + t) == LastSlash(s)
  {
    if t != [] {
      var init := t[..|t| - 1];
      assert (s + t)[..|s + t| - 1] == s + init;
      assert t[|t| - 1] in t;
      assert '/' !in init by {
        forall k | 0 <= k < |init| ensures init[k] != '/' { assert init[k] == t[k]; }
      }
      LastSlashPastSlashFree(s, init);
    } else {
      assert s + t == s;
    }
  }

  /** The last element is a tail of t, and only a slash comes before it:
      it is everything after the last slash. */
  lemma {:induction false} LastElementIsTail(t: string)
    ensures |LastElement(t)| <= |t|
    ensures LastElement(t) == t[|t| - |LastElement(t)|..]
    ensures |LastElement(t)| < |t| ==> t[|t| - |LastElement(t)| - 1] == '/'
  {
    if t != [] && t[|t| - 1] != '/' {
      var init := t[..|t| - 1];
      LastElementIsTail(init);
      var k := |init| - |LastElement(init)|;
      assert init[k..] + [t[|t| - 1]] == t[k..];
      if k > 0 { assert init[k - 1] == t[k - 1]; }
    }
  }

  /** After an empty prefix or one ending in a slash, a slash-free t is the
      last element. */
  lemma {:induction false} LastElementAfterSlash(s: string, t: string)
    requires s == [] || s[|s| - 1] == '/'
    requires '/' !in t
    ensures LastElement(s + t) == t
  {
    if t == [] {
      assert s + t == s;
    } else {
      var init := t[..|t| - 1];
      assert (s + t)[..|s + t| - 1] == s + init;
      assert t[|t| - 1] in t;
      assert '/' !in init by {
        forall k | 0 <= k < |init| ensures init[k] != '/' { assert init[k] == t[k]; }
      }
      LastElementAfterSlash(s, init);
      assert init + [t[|t| - 1]] == t;
    }
  }

  /** For a path parent + dir + "/" + file, with parent empty or ending in a
      slash and dir and file free of slashes, the package name is dir. */
  lemma PackageNameIsDirectory(parent: string, dir: string, file: string)
    requires parent == "" || parent[|parent| - 1] == '/'
    requires dir != "" && dir != "." && dir != ".." && '/' !in dir && '/' !in file
    ensures PackageName(parent + dir + "/" + file) == dir
  {
    var path := parent + dir + "/" + file;
    var head := parent + dir + "/";
    assert path == head + file;
    LastSlashPastSlashFree(head, file);
    assert LastSlash(head) == |head| - 1;
    assert path[..LastSlash(path) + 1] == head;
    assert dir[|dir| - 1] in dir;
    assert head[..|head| - 1] == parent + dir;
    assert TrimTrailingSlashes(head) == parent + dir;
    assert Dir(path) == parent + dir;
    assert TrimTrailingSlashes(parent + dir) == parent + dir;
    LastElementAfterSlash(parent, dir);
  }

  /** A file with no directory part lands in package ".". */
  lemma PackageNameOfBareFile()
    ensures PackageName("main.go") == "."
  {
    assert '/' !in "main.go";
    LastSlashPastSlashFree("", "main.go");
    assert "" + "main.go" == "main.go";
    assert LastElement(".") == LastElement([]) + ['.'];
  }

  // ---------------------------------------------------------------------
  // profileCoverage (gobertura.go:23-35)
  // ---------------------------------------------------------------------

  /** The statement total of one file and the part of it in blocks that ran;
      (0, 0) when the total is zero. */
  method ProfileCoverage(p: Profile) returns (total: int, covered: int)
    ensures total == TotalStmts(p.Blocks)
    ensures covered == FileCovered(p.Blocks)
    ensures total == 0 ==> covered == 0
  {
    total, covered := 0, 0;
    for i := 0 to |p.Blocks|
      invariant total == TotalStmts(p.Blocks[..i])
      invariant covered == CoveredStmts(p.Blocks[..i])
    {
      var b := p.Blocks[i];
      TotalsAppend(p.Blocks[..i], b);
      assert p.Blocks[..i + 1] == p.Blocks[..i] + [b];
      total := total + b.NumStmt;
      if b.Count > 0 {
        covered := covered + b.NumStmt;
      }
    }
    assert p.Blocks[..|p.Blocks|] == p.Blocks;
    if total == 0 {
      return 0, 0;
    }
  }

  // ---------------------------------------------------------------------
  // Attribution and expansion (gobertura.go:96-115)
  // ---------------------------------------------------------------------

  /** gobertura.go:105-114: one new line object per statement of b, in
      statement order, appended to the class's list; the same objects are
      returned for the method's list. */
  method ExpandBlock(b: ProfileBlock, cls: Class) returns (added: seq<Line>)
    modifies cls`Lines
    ensures cls.Lines == old(cls.Lines) + added
    ensures Values(added) == Expand(b)
    ensures forall l :: l in added ==> fresh(l)
  {
    added := [];
    var i := 0;
    while i < b.NumStmt
      invariant 0 <= i <= StmtCount(b)
      invariant cls.Lines == old(cls.Lines) + added
      invariant forall l :: l in added ==> fresh(l)
      invariant Values(added) == LineRun(b.StartLine, b.Count, i)
    {
      var line := new Line(i + b.StartLine, b.Count, false);
      AppendAssoc(old(cls.Lines), added, [line]);
      cls.Lines := cls.Lines + [line];
      added := added + [line];
      i := i + 1;
    }
  }

  lemma AppendAssoc<T>(a: seq<T>, b: seq<T>, c: seq<T>)
    ensures (a + b) + c == a + (b + c)
  {
  }

  /** gobertura.go:96-115: the scan over the file's blocks for function f.
      Every credited block is expanded; its line objects go to the end of
      the class's list and of the method's list, which is returned. */
  method AttributeBlocks(f: FuncDef, blocks: seq<ProfileBlock>, cls: Class) returns (lines: seq<Line>)
    modifies cls`Lines
    ensures cls.Lines == old(cls.Lines) + lines
    ensures Values(lines) == MethodLines(f, blocks)
  {
    lines := [];
    var i := 0;
    while i < |blocks|
      invariant 0 <= i <= |blocks|
      invariant cls.Lines == old(cls.Lines) + lines
      invariant Values(lines) + ExpandAll(Attributed(f, blocks[i..])) == MethodLines(f, blocks)
    {
      var b := blocks[i];
      AttributedFrom(f, blocks, i);
      if EndsScan(b, f) {
        assert Values(lines) + [] == Values(lines);
        return;
      }
      if SkippedBefore(b, f) {
        i := i + 1;
        continue;
      }
      ExpandAllCons(b, Attributed(f, blocks[i + 1..]));
      var more := ExpandBlock(b, cls);
      ValuesAppend(lines, more);
      AppendAssoc(Values(lines), Values(more), ExpandAll(Attributed(f, blocks[i + 1..])));
      AppendAssoc(old(cls.Lines), lines, more);
      lines := lines + more;
      i := i + 1;
    }
    assert Values(lines) + [] == Values(lines);
  }

  // ---------------------------------------------------------------------
  // Rates (gobertura.go:121-147)
  // ---------------------------------------------------------------------

  /** The counting loop of gobertura.go:123-129 and 133-139. */
  method CountLines(lines: seq<Line>) returns (covered: int, total: int)
    ensures covered == HitCount(Values(lines))
    ensures total == |lines|
  {
    covered, total := 0, 0;
    for i := 0 to |lines|
      invariant covered == HitCount(Values(lines[..i]))
      invariant total == i
    {
      assert lines[..i + 1][..i] == lines[..i];
      if lines[i].Hits > 0 {
        covered := covered + 1;
      }
      total := total + 1;
    }
    assert lines[..|lines|] == lines;
  }

  /** The rate loops of gobertura.go:122-143 for one class: the class's
      rate from its own line list, then each method's from its list. */
  method ClassRates(cls: Class)
    modifies cls`LineRate, (set m | m in cls.Methods)`LineRate
    ensures cls.LineRate == RateOf(Values(cls.Lines))
    ensures forall m :: m in cls.Methods ==> m.LineRate == RateOf(Values(m.Lines))
  {
    var covered, total := CountLines(cls.Lines);
    cls.LineRate := Ratio(covered, total);
    for i := 0 to |cls.Methods|
      invariant cls.LineRate == RateOf(Values(cls.Lines))
      invariant forall j :: 0 <= j < i ==> cls.Methods[j].LineRate == RateOf(Values(cls.Methods[j].Lines))
    {
      var m := cls.Methods[i];
      var c, t := CountLines(m.Lines);
      m.LineRate := Ratio(c, t);
    }
  }

  /** gobertura.go:122-143: every class and every method of the package
      gets the rate of its own line list. Nothing else changes. */
  method ComputeRates(classes: seq<Class>, ghost ms: set<Method>)
    requires forall c, m :: c in classes && m in c.Methods ==> m in ms
    modifies (set c | c in classes)`LineRate, ms`LineRate
    ensures forall j :: 0 <= j < |classes| ==> classes[j].LineRate == RateOf(Values(classes[j].Lines))
    ensures forall j, m :: 0 <= j < |classes| && m in classes[j].Methods ==> m.LineRate == RateOf(Values(m.Lines))
    ensures forall j :: 0 <= j < |classes| ==> classes[j].Methods == old(classes[j].Methods) && classes[j].Lines == old(classes[j].Lines)
  {
    for i := 0 to |classes|
      invariant forall j :: 0 <= j < i ==> classes[j].LineRate == RateOf(Values(classes[j].Lines))
      invariant forall j, m :: 0 <= j < i && m in classes[j].Methods ==> m.LineRate == RateOf(Values(m.Lines))
    {
      ClassRates(classes[i]);
    }
  }

  // ---------------------------------------------------------------------
  // Grouping one file's functions into classes (gobertura.go:68, 78-118)
  // ---------------------------------------------------------------------

  /** gobertura.go:91-117: the method made for f, holding the lines of the
      blocks credited to f, appended to its class; the class's own list
      gains the same line objects. */
  method AddMethod(cls: Class, f: FuncDef, blocks: seq<ProfileBlock>)
    requires SharesLines(cls)
    modifies cls`Methods, cls`Lines
    ensures SharesLines(cls)
    ensures |cls.Methods| == |old(cls.Methods)| + 1
    ensures cls.Methods[..|old(cls.Methods)|] == old(cls.Methods)
    ensures fresh(cls.Methods[|old(cls.Methods)|])
    ensures MethodViews(cls.Methods) == old(MethodViews(cls.Methods)) + [MethodV(f.Name, MethodLines(f, blocks))]
  {
    var lines := AttributeBlocks(f, blocks, cls);
    var meth := new Method(f.Name, lines);
    cls.Methods := cls.Methods + [meth];
    assert cls.Methods[..|cls.Methods| - 1] == old(cls.Methods);
  }

  /** The class objects cs stand for the class values vs, and each shares
      its line objects with its methods. */
  predicate Built(cs: seq<Class>, vs: seq<ClassV>)
    reads (set c | c in cs)`Methods, (set c | c in cs)`Lines
  {
    Describes(cs, vs) && forall j :: 0 <= j < |cs| ==> SharesLines(cs[j])
  }

  /** Every method of the classes cs is one of ms. */
  predicate MethodsIn(cs: seq<Class>, ms: set<Method>)
    reads (set c | c in cs)`Methods
  {
    forall j, k :: 0 <= j < |cs| && 0 <= k < |cs[j].Methods| ==> cs[j].Methods[k] in ms
  }

  lemma MethodsInAppend(cs: seq<Class>, a: set<Method>, ds: seq<Class>, b: set<Method>)
    requires MethodsIn(cs, a) && MethodsIn(ds, b)
    ensures MethodsIn(cs + ds, a + b)
  {
    forall j, k | 0 <= j < |cs + ds| && 0 <= k < |(cs + ds)[j].Methods|
      ensures (cs + ds)[j].Methods[k] in a + b
    {
      if j < |cs| {
        assert (cs + ds)[j] == cs[j];
      } else {
        assert (cs + ds)[j] == ds[j - |cs|];
      }
    }
  }

  lemma MethodsInMembers(cs: seq<Class>, ms: set<Method>)
    requires MethodsIn(cs, ms)
    ensures forall c, m :: c in cs && m in c.Methods ==> m in ms
  {
    forall c, m | c in cs && m in c.Methods
      ensures m in ms
    {
      var j :| 0 <= j < |cs| && cs[j] == c;
      var k :| 0 <= k < |c.Methods| && c.Methods[k] == m;
    }
  }

  /** The map of gobertura.go:68 holds exactly the names of the class
      values vs, each bound to the class object at that name's position. */
  ghost predicate Indexed(cs: seq<Class>, vs: seq<ClassV>, classes: map<string, Class>) {
    && |cs| == |vs|
    && forall r ::
         && (r in classes <==> ClassIndex(vs, r) < |vs|)
         && (r in classes ==> classes[r] == cs[ClassIndex(vs, r)])
  }

  /** The creation branch of gobertura.go:80-89: a new class for receiver r
      with the profile's file name, entered in the map and appended to the
      package after the classes already made for the file. */
  method NewClass(pkg: Package, classes: map<string, Class>, profile: Profile, r: string,
                  ghost pre: seq<Class>, ghost made: seq<Class>, ghost vs: seq<ClassV>)
    returns (cls: Class, classes': map<string, Class>)
    requires pkg.Classes == pre + made && r !in classes
    requires Built(made, vs) && Indexed(made, vs, classes)
    modifies pkg`Classes
    ensures fresh(cls) && pkg.Classes == pre + (made + [cls])
    ensures cls.Name == r && cls.Methods == [] && classes' == classes[r := cls]
    ensures Built(made + [cls], vs + [ClassV(r, profile.FileName, [])])
    ensures Indexed(made + [cls], vs + [ClassV(r, profile.FileName, [])], classes')
  {
    label Start:
    cls := new Class(r, profile.FileName);
    classes' := classes[r := cls];
    AppendAssoc(pre, made, [cls]);
    pkg.Classes := pkg.Classes + [cls];
    ghost var made' := made + [cls];
    ghost var v := ClassV(r, profile.FileName, []);
    forall j | 0 <= j < |made|
      ensures ClassView(made'[j]) == (vs + [v])[j] && SharesLines(made'[j])
    {
      assert old@Start(ClassView(made[j]) == vs[j] && SharesLines(made[j]));
    }
    forall r' | true
      ensures r' in classes' <==> ClassIndex(vs + [v], r') < |vs| + 1
      ensures r' in classes' ==> classes'[r'] == made'[ClassIndex(vs + [v], r')]
    {
      ClassIndexAppend(vs, v, r');
    }
  }

  /** The class lookup of gobertura.go:79-89: the class already made for f's
      receiver, or a new one appended after the file's classes. Either way
      it sits at the receiver's position among the class values, and the
      map indexes the class values as they are once f's method is in. */
  method ClassFor(pkg: Package, classes: map<string, Class>, profile: Profile, f: FuncDef,
                  ghost pre: seq<Class>, ghost made: seq<Class>, ghost vs: seq<ClassV>, ghost ms: set<Method>)
    returns (cls: Class, classes': map<string, Class>, ghost made': seq<Class>)
    requires pkg.Classes == pre + made
    requires Built(made, vs) && Indexed(made, vs, classes) && MethodsIn(made, ms)
    modifies pkg`Classes
    ensures pkg.Classes == pre + made'
    ensures made' == made || (made' == made + [cls] && fresh(cls))
    ensures ClassIndex(vs, f.Receiver) < |made'| && made'[ClassIndex(vs, f.Receiver)] == cls
    ensures Built(made', WithClass(vs, profile.FileName, f.Receiver)) && MethodsIn(made', ms)
    ensures Indexed(made', Inserted(vs, profile.FileName, f, profile.Blocks), classes')
  {
    if f.Receiver in classes {
      cls := classes[f.Receiver];
      classes', made' := classes, made;
    } else {
      cls, classes' := NewClass(pkg, classes, profile, f.Receiver, pre, made, vs);
      made' := made + [cls];
      MethodsInAppend(made, ms, [cls], {});
      assert ms + {} == ms;
    }
    IndexedInserted(made', vs, profile.FileName, f, profile.Blocks, classes');
  }

  /** gobertura.go:91-117 seen from the whole file: the class at position
      k gains f's method and the other classes are untouched. */
  method AddMethodAt(cls: Class, f: FuncDef, blocks: seq<ProfileBlock>,
                     ghost cs: seq<Class>, ghost us: seq<ClassV>, ghost k: nat, ghost ms: set<Method>)
    returns (ghost m: Method)
    requires k < |cs| && cs[k] == cls && DistinctNames(us) && Built(cs, us) && MethodsIn(cs, ms)
    modifies cls`Methods, cls`Lines
    ensures Built(cs, us[k := us[k].(Methods := us[k].Methods + [MethodV(f.Name, MethodLines(f, blocks))])])
    ensures fresh(m) && MethodsIn(cs, ms + {m})
  {
    ghost var ws := us[k := us[k].(Methods := us[k].Methods + [MethodV(f.Name, MethodLines(f, blocks))])];
    label Before:
    AddMethod(cls, f, blocks);
    forall j | 0 <= j < |cs|
      ensures ClassView(cs[j]) == ws[j] && SharesLines(cs[j])
    {
      if j != k {
        assert us[j].Name != us[k].Name;
        assert old@Before(ClassView(cs[j]) == us[j] && SharesLines(cs[j]));
      }
    }
    m := cls.Methods[|cls.Methods| - 1];
    forall j, i | 0 <= j < |cs| && 0 <= i < |cs[j].Methods|
      ensures cs[j].Methods[i] in ms + {m}
    {
      if j != k {
        assert us[j].Name != us[k].Name;
        assert old@Before(cs[j].Methods[i] in ms);
      } else if i < |cs[j].Methods| - 1 {
        assert old@Before(cs[j].Methods[i] in ms);
      }
    }
  }

  /** Adding a method keeps every name at its place, so the map still
      indexes the classes. */
  lemma IndexedInserted(cs: seq<Class>, vs: seq<ClassV>, file: string, f: FuncDef, bs: seq<ProfileBlock>,
                        classes: map<string, Class>)
    requires Indexed(cs, WithClass(vs, file, f.Receiver), classes)
    ensures Indexed(cs, Inserted(vs, file, f, bs), classes)
  {
    var us, ws := WithClass(vs, file, f.Receiver), Inserted(vs, file, f, bs);
    InsertedWithClass(vs, file, f, bs);
    forall r | true
      ensures ClassIndex(ws, r) == ClassIndex(us, r)
    {
      ClassIndexSameNames(us, ws, r);
    }
  }

  /** The body of the loop of gobertura.go:78-118 for function f: find or
      make the class of f's receiver, then append f's method to it. The
      classes made for the file, after the classes pre of the earlier files,
      stand for the class values vs before and for Inserted after. */
  method AddFunction(pkg: Package, classes: map<string, Class>, profile: Profile, f: FuncDef,
                     ghost pre: seq<Class>, ghost made: seq<Class>, ghost vs: seq<ClassV>, ghost ms: set<Method>)
    returns (classes': map<string, Class>, ghost made': seq<Class>, ghost m: Method)
    requires pkg.Classes == pre + made && DistinctNames(vs)
    requires Built(made, vs) && Indexed(made, vs, classes) && MethodsIn(made, ms)
    modifies pkg`Classes, made
    ensures pkg.Classes == pre + made'
    ensures made' == made || (|made'| == |made| + 1 && made' == made + [made'[|made|]] && fresh(made'[|made|]))
    ensures Built(made', Inserted(vs, profile.FileName, f, profile.Blocks))
    ensures Indexed(made', Inserted(vs, profile.FileName, f, profile.Blocks), classes')
    ensures fresh(m) && MethodsIn(made', ms + {m})
  {
    var cls;
    cls, classes', made' := ClassFor(pkg, classes, profile, f, pre, made, vs, ms);
    ghost var pc := pkg.Classes;
    m := AddMethodAt(cls, f, profile.Blocks, made', WithClass(vs, profile.FileName, f.Receiver), ClassIndex(vs, f.Receiver), ms);
    assert pkg.Classes == pc;
    InsertedWithClass(vs, profile.FileName, f, profile.Blocks);
  }

  /** The pass of the loop of gobertura.go:78-118 for the i-th function:
      the file's classes stand for the class values of the functions before
      it, and then for those of the functions up to it. */
  method FileStep(pkg: Package, classes: map<string, Class>, profile: Profile, funcs: seq<FuncDef>, i: nat,
                  ghost pre: seq<Class>, ghost made: seq<Class>, ghost ms: set<Method>)
    returns (classes': map<string, Class>, ghost made': seq<Class>, ghost m: Method)
    requires i < |funcs| && pkg.Classes == pre + made && MethodsIn(made, ms)
    requires Built(made, Grouped(profile, funcs[..i]))
    requires Indexed(made, Grouped(profile, funcs[..i]), classes)
    modifies pkg`Classes, made
    ensures pkg.Classes == pre + made'
    ensures made' == made || (|made'| == |made| + 1 && made' == made + [made'[|made|]] && fresh(made'[|made|]))
    ensures Built(made', Grouped(profile, funcs[..i + 1]))
    ensures Indexed(made', Grouped(profile, funcs[..i + 1]), classes')
    ensures fresh(m) && MethodsIn(made', ms + {m})
  {
    assert funcs[..i + 1][..i] == funcs[..i];
    GroupedDistinct(profile, funcs[..i]);
    classes', made', m := AddFunction(pkg, classes, profile, funcs[i], pre, made, Grouped(profile, funcs[..i]), ms);
  }

  /** One file's classes (gobertura.go:68-118): the class objects appended to
      the package are fresh, stand for the file's class values and share
      their line objects with their methods. */
  method ProcessFile(pkg: Package, profile: Profile, funcs: seq<FuncDef>)
    returns (ghost made: seq<Class>, ghost ms: set<Method>)
    modifies pkg`Classes
    ensures pkg.Classes == old(pkg.Classes) + made
    ensures forall j :: 0 <= j < |made| ==> fresh(made[j])
    ensures forall m :: m in ms ==> fresh(m)
    ensures Built(made, Grouped(profile, funcs)) && MethodsIn(made, ms)
  {
    var classes: map<string, Class> := map[];
    made, ms := [], {};
    for i := 0 to |funcs|
      invariant pkg.Classes == old(pkg.Classes) + made
      invariant forall j :: 0 <= j < |made| ==> fresh(made[j])
      invariant forall m :: m in ms ==> fresh(m)
      invariant Built(made, Grouped(profile, funcs[..i])) && MethodsIn(made, ms)
      invariant Indexed(made, Grouped(profile, funcs[..i]), classes)
    {
      ghost var m;
      classes, made, m := FileStep(pkg, classes, profile, funcs, i, old(pkg.Classes), made, ms);
      ms := ms + {m};
    }
    assert funcs[..|funcs|] == funcs;
  }

  // ---------------------------------------------------------------------
  // The conversion (gobertura.go:48-55, 63-147)
  // ---------------------------------------------------------------------

  /** Class objects built file by file stand for the files' class values
      side by side. */
  lemma BuiltAppend(cs: seq<Class>, vs: seq<ClassV>, ds: seq<Class>, ws: seq<ClassV>)
    requires Built(cs, vs) && Built(ds, ws)
    ensures Built(cs + ds, vs + ws)
  {
    forall j | 0 <= j < |cs + ds|
      ensures ClassView((cs + ds)[j]) == (vs + ws)[j] && SharesLines((cs + ds)[j])
    {
      if j < |cs| {
        assert (cs + ds)[j] == cs[j];
      } else {
        assert (cs + ds)[j] == ds[j - |cs|];
      }
    }
  }

  /** The body of the loop of gobertura.go:63-119 for one profile: the
      package takes its name from the first file, the report adds up the
      file's statements, and the file's classes join the package. */
  method AddProfile(summary: Coverage, pkg: Package, profile: Profile, findFuncs: string -> seq<FuncDef>)
    returns (ghost made: seq<Class>, ghost ms: set<Method>)
    modifies summary`LinesValid, summary`LinesCovered, pkg`Name, pkg`Classes
    ensures pkg.Name == if old(pkg.Name) == "" then PackageName(profile.FileName) else old(pkg.Name)
    ensures summary.LinesValid == old(summary.LinesValid) + TotalStmts(profile.Blocks)
    ensures summary.LinesCovered == old(summary.LinesCovered) + FileCovered(profile.Blocks)
    ensures pkg.Classes == old(pkg.Classes) + made
    ensures forall j :: 0 <= j < |made| ==> fresh(made[j])
    ensures forall m :: m in ms ==> fresh(m)
    ensures Built(made, FileClasses(profile, findFuncs(profile.FileName))) && MethodsIn(made, ms)
  {
    if pkg.Name == "" {
      pkg.Name := PackageName(profile.FileName);
    }
    var total, covered := ProfileCoverage(profile);
    summary.LinesValid := summary.LinesValid + total;
    summary.LinesCovered := summary.LinesCovered + covered;
    var funcs := findFuncs(profile.FileName);
    made, ms := ProcessFile(pkg, profile, funcs);
    GroupedIsFileClasses(profile, funcs);
  }

  /** The package name after the files ps: empty before the first file,
      then that file's package name. */
  function ReportName(ps: seq<Profile>): string {
    if ps == [] then "" else PackageName(ps[0].FileName)
  }

  /** One more file: the name is set the first time only, and the totals
      grow by the file's. */
  lemma ReportNext(ps: seq<Profile>, i: nat)
    requires i < |ps|
    ensures ReportName(ps[..i + 1]) == if ReportName(ps[..i]) == "" then PackageName(ps[i].FileName) else ReportName(ps[..i])
    ensures ReportValid(ps[..i + 1]) == ReportValid(ps[..i]) + TotalStmts(ps[i].Blocks)
    ensures ReportCovered(ps[..i + 1]) == ReportCovered(ps[..i]) + FileCovered(ps[i].Blocks)
  {
    assert ps[..i + 1][..i] == ps[..i];
  }

  /** The report fields the loops never assign keep their zero values: no
      version, no branch counts and no complexity. */
  predicate BranchFree(summary: Coverage)
    reads summary`Version, summary`Complexity, summary`BranchesCovered, summary`BranchesValid
  {
    summary.Version == "" && summary.Complexity == 0 && summary.BranchesCovered == 0 && summary.BranchesValid == 0
  }

  /** The loop of gobertura.go:63-119 up to the files ps: the package is
      named after the first file, the report's totals are those of the files
      so far, and the package's classes stand for the class values vs. */
  ghost predicate Converted(summary: Coverage, pkg: Package, ps: seq<Profile>, vs: seq<ClassV>)
    reads summary`LinesValid, summary`LinesCovered, pkg`Name, pkg`Classes
    reads (set c | c in pkg.Classes)`Methods, (set c | c in pkg.Classes)`Lines
  {
    && pkg.Name == ReportName(ps)
    && summary.LinesValid == ReportValid(ps)
    && summary.LinesCovered == ReportCovered(ps)
    && Built(pkg.Classes, vs)
  }

  /** The pass of the loop of gobertura.go:63-119 for the i-th profile: the
      package's classes, standing for vs, gain those standing for the
      file's class values ws. */
  method ConvertStep(summary: Coverage, pkg: Package, profiles: seq<Profile>, i: nat, findFuncs: string -> seq<FuncDef>,
                     ghost vs: seq<ClassV>, ghost ms: set<Method>)
    returns (ghost made: seq<Class>, ghost ws: seq<ClassV>, ghost ms': set<Method>)
    requires i < |profiles| && Converted(summary, pkg, profiles[..i], vs) && MethodsIn(pkg.Classes, ms)
    modifies summary`LinesValid, summary`LinesCovered, pkg`Name, pkg`Classes
    ensures pkg.Classes == old(pkg.Classes) + made
    ensures forall j :: 0 <= j < |made| ==> fresh(made[j])
    ensures forall m :: m in ms' ==> fresh(m)
    ensures ws == FileClasses(profiles[i], findFuncs(profiles[i].FileName))
    ensures Converted(summary, pkg, profiles[..i + 1], vs + ws) && MethodsIn(pkg.Classes, ms + ms')
    ensures summary.Timestamp == old(summary.Timestamp) && pkg.BranchRate == old(pkg.BranchRate)
  {
    ghost var pre := pkg.Classes;
    ReportNext(profiles, i);
    made, ms' := AddProfile(summary, pkg, profiles[i], findFuncs);
    assert Built(pre, vs) && MethodsIn(pre, ms);
    ws := FileClasses(profiles[i], findFuncs(profiles[i].FileName));
    BuiltAppend(pre, vs, made, ws);
    MethodsInAppend(pre, ms, made, ms');
  }

  /** The loop of gobertura.go:63-119 over all profiles, from the empty
      package and the zero totals. */
  method ConvertFiles(summary: Coverage, pkg: Package, profiles: seq<Profile>, findFuncs: string -> seq<FuncDef>)
    returns (ghost vs: seq<ClassV>, ghost ms: set<Method>)
    requires Converted(summary, pkg, [], [])
    modifies summary`LinesValid, summary`LinesCovered, pkg`Name, pkg`Classes
    ensures forall c :: c in pkg.Classes ==> fresh(c)
    ensures forall m :: m in ms ==> fresh(m)
    ensures forall c, m :: c in pkg.Classes && m in c.Methods ==> m in ms
    ensures vs == AllClasses(profiles, findFuncs) && Converted(summary, pkg, profiles, vs)
    ensures summary.Timestamp == old(summary.Timestamp) && pkg.BranchRate == old(pkg.BranchRate)
  {
    vs, ms := [], {};
    for i := 0 to |profiles|
      invariant forall j :: 0 <= j < |pkg.Classes| ==> fresh(pkg.Classes[j])
      invariant forall m :: m in ms ==> fresh(m)
      invariant vs == AllClasses(profiles[..i], findFuncs)
      invariant Converted(summary, pkg, profiles[..i], vs) && MethodsIn(pkg.Classes, ms)
      invariant summary.Timestamp == old(summary.Timestamp) && pkg.BranchRate == old(pkg.BranchRate)
    {
      ghost var made, ws, ms';
      made, ws, ms' := ConvertStep(summary, pkg, profiles, i, findFuncs, vs, ms);
      AllClassesStep(profiles, i, findFuncs);
      vs, ms := vs + ws, ms + ms';
    }
    assert profiles[..|profiles|] == profiles;
    MethodsInMembers(pkg.Classes, ms);
  }

  /** gobertura.go:121-147: the package's rate from the report's totals,
      the rates of every class and method, then the report's branch rate,
      its single package and its rate. */
  method Finish(summary: Coverage, pkg: Package, ghost vs: seq<ClassV>, ghost ms: set<Method>)
    requires forall c, m :: c in pkg.Classes && m in c.Methods ==> m in ms
    requires Built(pkg.Classes, vs)
    modifies pkg`LineRate, summary`BranchRate, summary`Packages, summary`LineRate
    modifies (set c | c in pkg.Classes)`LineRate, ms`LineRate
    ensures summary.BranchRate == FullRate && summary.Packages == [pkg]
    ensures summary.LineRate == Ratio(summary.LinesCovered, summary.LinesValid) == pkg.LineRate
    ensures forall j :: 0 <= j < |pkg.Classes| ==> pkg.Classes[j].LineRate == RateOf(Values(pkg.Classes[j].Lines))
    ensures forall j, m :: 0 <= j < |pkg.Classes| && m in pkg.Classes[j].Methods ==> m.LineRate == RateOf(Values(m.Lines))
    ensures Built(pkg.Classes, vs)
    ensures pkg.Name == old(pkg.Name) && pkg.Classes == old(pkg.Classes) && pkg.BranchRate == old(pkg.BranchRate)
    ensures summary.Timestamp == old(summary.Timestamp)
    ensures summary.LinesValid == old(summary.LinesValid) && summary.LinesCovered == old(summary.LinesCovered)
    ensures BranchFree(summary) == old(BranchFree(summary)) && pkg.Complexity == old(pkg.Complexity)
  {
    pkg.LineRate := Ratio(summary.LinesCovered, summary.LinesValid);
    ComputeRates(pkg.Classes, ms);
    summary.BranchRate := FullRate;
    summary.Packages := [pkg];
    summary.LineRate := Ratio(summary.LinesCovered, summary.LinesValid);
  }

  /** gobertura.go:48-147 from the parsed profiles to the report, before
      encoding. findFuncs stands for FindFuncs and timestamp for the clock
      reading. The report holds one package, named after the first file's
      directory, with the classes of all files; every rate is the ratio of
      covered to total lines at its level, and both branch rates are 1. */
  method Convert(profiles: seq<Profile>, findFuncs: string -> seq<FuncDef>, timestamp: int)
    returns (summary: Coverage)
    ensures summary.Timestamp == timestamp && summary.BranchRate == FullRate
    ensures summary.LinesValid == ReportValid(profiles)
    ensures summary.LinesCovered == ReportCovered(profiles)
    ensures summary.LineRate == Ratio(ReportCovered(profiles), ReportValid(profiles))
    ensures BranchFree(summary)
    ensures |summary.Packages| == 1
    ensures var pkg := summary.Packages[0];
      && pkg.Name == ReportName(profiles) && pkg.Complexity == 0
      && pkg.LineRate == summary.LineRate && pkg.BranchRate == FullRate
      && Built(pkg.Classes, AllClasses(profiles, findFuncs))
      && (forall j :: 0 <= j < |pkg.Classes| ==> pkg.Classes[j].LineRate == RateOf(Values(pkg.Classes[j].Lines)))
      && (forall j, m :: 0 <= j < |pkg.Classes| && m in pkg.Classes[j].Methods ==> m.LineRate == RateOf(Values(m.Lines)))
  {
    summary := new Coverage(timestamp);
    var pkg := new Package();
    ghost var vs, ms := ConvertFiles(summary, pkg, profiles, findFuncs);
    Finish(summary, pkg, vs, ms);
  }
}
