/** What the coverage-profile parser (golang.org/x/tools/cover) hands to the
    converter. The parser itself is not part of this model: its output is the
    input of the conversion. */
module Cover {

  /** One profile block: a source range, the number of statements it holds
      and how often it ran. */
  datatype ProfileBlock = ProfileBlock(
    StartLine: int, StartCol: int,
    EndLine: int, EndCol: int,
    NumStmt: int, Count: int)

  /** The profile of one source file. The profile's Mode is never read by the
      converter and is not modelled. */
  datatype Profile = Profile(FileName: string, Blocks: seq<ProfileBlock>)

  /** A (line, column) source position. */
  datatype Pos = Pos(Line: int, Col: int)

  /** Strict lexicographic order on positions. */
  predicate Before(a: Pos, b: Pos) {
    a.Line < b.Line || (a.Line == b.Line && a.Col < b.Col)
  }

  function Start(b: ProfileBlock): Pos { Pos(b.StartLine, b.StartCol) }

  function End(b: ProfileBlock): Pos { Pos(b.EndLine, b.EndCol) }

  /** The parser returns every file's blocks ordered by start position. */
  predicate SortedByStart(bs: seq<ProfileBlock>) {
    forall i, j :: 0 <= i < j < |bs| ==> !Before(Start(bs[j]), Start(bs[i]))
  }

  /** Every block of the file has a non-negative statement count, as the
      parser (which reads the count as a run of digits) guarantees. */
  predicate NonNegative(bs: seq<ProfileBlock>) {
    forall b :: b in bs ==> b.NumStmt >= 0
  }
}
