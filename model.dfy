/** model.go: the report records. Lines are objects shared by reference
    between a method's and its class's line lists; methods, classes, the
    package and the report are objects whose lists and rates are updated in
    place. The XML tags only drive serialisation and are not modelled. */
module Model {
  import opened Attribution

  /** A rate as the (covered, total) pair the source divides as float64.
      A pair with Total == 0 is the source's division by zero. It is the NaN
      0/0 because covered is then 0 too: with the non-negative statement
      counts the parser guarantees, covered never exceeds total (see
      CoveredWithinTotal and ReportCoveredWithinValid). A negative count
      could give c/0 with c > 0, which is an infinity in the source. */
  datatype Ratio = Ratio(Covered: int, Total: int) {
    predicate IsNaN() { Total == 0 }
  }

  /** The float64 zero value 0.0 that a rate holds until it is set. */
  const ZeroRate: Ratio := Ratio(0, 1)

  /** The constant rate 1 used for every branch rate the source sets. */
  const FullRate: Ratio := Ratio(1, 1)

  /** The rate of a list of line records: the records with positive hits
      over all records. */
  function RateOf(ls: seq<LineV>): Ratio {
    Ratio(HitCount(ls), |ls|)
  }

  /** A rate is a fraction; it is NaN exactly for no records and 1 exactly
      when every record has hits. */
  lemma RateOfMeaning(ls: seq<LineV>)
    ensures 0 <= RateOf(ls).Covered <= RateOf(ls).Total
    ensures RateOf(ls).IsNaN() <==> ls == []
    ensures RateOf(ls).Covered == RateOf(ls).Total <==> forall l :: l in ls ==> l.Hits > 0
  {
    AllHitCount(ls);
  }

  lemma {:induction false} AllHitCount(ls: seq<LineV>)
    ensures HitCount(ls) == |ls| <==> forall l :: l in ls ==> l.Hits > 0
  {
    if ls != [] {
      var init := ls[..|ls| - 1];
      assert ls == init + [ls[|ls| - 1]];
      AllHitCount(init);
    }
  }

  class Line {
    const Number: int
    const Hits: int
    const Branch: bool

    constructor (number: int, hits: int, branch: bool)
      ensures Number == number && Hits == hits && Branch == branch
    {
      Number, Hits, Branch := number, hits, branch;
    }
  }

  /** The value a line object stands for. */
  function LineValue(l: Line): LineV {
    LineV(l.Number, l.Hits, l.Branch)
  }

  /** The values of a list of line objects. */
  function Values(ls: seq<Line>): (vs: seq<LineV>)
    ensures |vs| == |ls|
  {
    if ls == [] then [] else Values(ls[..|ls| - 1]) + [LineValue(ls[|ls| - 1])]
  }

  lemma {:induction false} ValuesAppend(a: seq<Line>, b: seq<Line>)
    ensures Values(a + b) == Values(a) + Values(b)
  {
    if b == [] {
      assert a + b == a;
    } else {
      ValuesAppend(a, b[..|b| - 1]);
      assert (a + b)[..|a + b| - 1] == a + b[..|b| - 1];
    }
  }

  class Method {
    const Name: string
    const Signature: string
    var LineRate: Ratio
    var BranchRate: Ratio
    var Complexity: int
    const Lines: seq<Line>

    /** The method literal of gobertura.go:91-94 together with the line
        objects its list collects before the method joins its class. */
    constructor (name: string, lines: seq<Line>)
      ensures Name == name && Signature == "" && Lines == lines
      ensures LineRate == ZeroRate && BranchRate == ZeroRate && Complexity == 0
    {
      Name, Signature := name, "";
      LineRate, BranchRate, Complexity := ZeroRate, ZeroRate, 0;
      Lines := lines;
    }
  }

  class Class {
    const Name: string
    const Filename: string
    var LineRate: Ratio
    var BranchRate: Ratio
    var Complexity: int
    var Methods: seq<Method>
    var Lines: seq<Line>

    constructor (name: string, filename: string)
      ensures Name == name && Filename == filename && Methods == [] && Lines == []
      ensures LineRate == ZeroRate && BranchRate == ZeroRate && Complexity == 0
    {
      Name, Filename := name, filename;
      LineRate, BranchRate, Complexity := ZeroRate, ZeroRate, 0;
      Methods, Lines := [], [];
    }
  }

  class Package {
    var Name: string
    var LineRate: Ratio
    var BranchRate: Ratio
    var Complexity: int
    var Classes: seq<Class>

    /** The package literal of gobertura.go:52-55: branch rate 1, no classes. */
    constructor ()
      ensures Name == "" && Classes == [] && BranchRate == FullRate
      ensures LineRate == ZeroRate && Complexity == 0
    {
      Name, Classes := "", [];
      LineRate, BranchRate, Complexity := ZeroRate, FullRate, 0;
    }
  }

  class Coverage {
    var LineRate: Ratio
    var BranchRate: Ratio
    var LinesCovered: int
    var LinesValid: int
    var BranchesCovered: int
    var BranchesValid: int
    var Complexity: int
    var Version: string
    var Timestamp: int
    var Packages: seq<Package>

    /** The report literal of gobertura.go:48-50: only the timestamp set. */
    constructor (timestamp: int)
      ensures Timestamp == timestamp && Packages == [] && Version == ""
      ensures LinesCovered == 0 && LinesValid == 0 && BranchesCovered == 0 && BranchesValid == 0
      ensures LineRate == ZeroRate && BranchRate == ZeroRate && Complexity == 0
    {
      Timestamp, Packages, Version := timestamp, [], "";
      LinesCovered, LinesValid, BranchesCovered, BranchesValid := 0, 0, 0, 0;
      LineRate, BranchRate, Complexity := ZeroRate, ZeroRate, 0;
    }
  }

  /** The value of a method object. */
  function MethodView(m: Method): MethodV {
    MethodV(m.Name, Values(m.Lines))
  }

  /** The values of a list of method objects. */
  function MethodViews(ms: seq<Method>): (vs: seq<MethodV>)
    ensures |vs| == |ms|
  {
    if ms == [] then [] else MethodViews(ms[..|ms| - 1]) + [MethodView(ms[|ms| - 1])]
  }

  /** The value of a class object. */
  function ClassView(c: Class): ClassV
    reads c`Methods
  {
    ClassV(c.Name, c.Filename, MethodViews(c.Methods))
  }

  /** The line objects of a list of methods, method after method. */
  function LinesOfMethods(ms: seq<Method>): seq<Line> {
    if ms == [] then [] else LinesOfMethods(ms[..|ms| - 1]) + ms[|ms| - 1].Lines
  }

  /** The aliasing contract: a class's line list is, object for object, the
      concatenation of its methods' line lists. */
  predicate SharesLines(c: Class)
    reads c`Lines, c`Methods
  {
    c.Lines == LinesOfMethods(c.Methods)
  }

  /** The class objects cs stand for the class values vs, one for one. */
  predicate Describes(cs: seq<Class>, vs: seq<ClassV>)
    reads (set c | c in cs)`Methods
  {
    |cs| == |vs| && forall j :: 0 <= j < |cs| ==> ClassView(cs[j]) == vs[j]
  }

  lemma {:induction false} ValuesOfMethodLines(ms: seq<Method>)
    ensures Values(LinesOfMethods(ms)) == FlattenLines(MethodViews(ms))
  {
    if ms != [] {
      var init := ms[..|ms| - 1];
      ValuesOfMethodLines(init);
      ValuesAppend(LinesOfMethods(init), ms[|ms| - 1].Lines);
      assert MethodViews(ms)[..|ms| - 1] == MethodViews(init);
    }
  }

  /** A class that shares its methods' lines has the line values its class
      value determines, so its rate is that of its methods' records. */
  lemma SharedLinesValues(c: Class)
    requires SharesLines(c)
    ensures Values(c.Lines) == FlattenLines(ClassView(c).Methods)
  {
    ValuesOfMethodLines(c.Methods);
  }

  lemma {:induction false} FlattenLinesAppend(ms: seq<MethodV>, m: MethodV)
    ensures FlattenLines(ms + [m]) == FlattenLines(ms) + m.Lines
  {
    assert (ms + [m])[..|ms|] == ms;
  }

  /** A class's covered and total counts are the sums of its methods'. */
  lemma {:induction false} ClassRateSumsMethods(ms: seq<MethodV>, m: MethodV)
    ensures RateOf(FlattenLines(ms + [m])).Covered == RateOf(FlattenLines(ms)).Covered + RateOf(m.Lines).Covered
    ensures RateOf(FlattenLines(ms + [m])).Total == RateOf(FlattenLines(ms)).Total + RateOf(m.Lines).Total
  {
    FlattenLinesAppend(ms, m);
    HitCountAppend(FlattenLines(ms), m.Lines);
  }
}
