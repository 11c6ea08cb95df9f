/** visitor.go: the syntax-tree visitor that records every function
    declaration with its receiver name and source span. Parsing and the walk
    over the tree (FindFuncs) are not modelled: the visitor is handed the
    nodes, with their positions already resolved through the file set. */
module Visitor {

  datatype Option<T> = None | Some(value: T)

  /** The receiver type expressions the visitor distinguishes. */
  datatype Expr = Ident(Name: string) | StarExpr(X: Expr) | OtherExpr

  /** One field of a receiver list. */
  datatype Field = Field(Type: Expr)

  /** A resolved source position (token.Position). */
  datatype Position = Position(Line: int, Column: int)

  /** A syntax-tree node: a function declaration, with its receiver list
      (None when the declaration has no receiver) and the positions of its
      first and one-past-last characters, or any other node. */
  datatype Node =
    | FuncDecl(Name: string, Recv: Option<seq<Field>>, Pos: Position, End: Position)
    | OtherNode

  /** One recorded declaration. */
  datatype FuncDef = FuncDef(
    Name: string, File: string, Receiver: string,
    StartLine: int, StartCol: int, EndLine: int, EndCol: int)

  /** The receiver name recorded for functions declared without a receiver,
      or with a receiver type the visitor does not recognise. */
  const NoReceiver: string := "-"

  /** The receiver name of a declaration (visitor.go:60-70). Only the first
      field of the receiver list is consulted. None stands for the index panic
      of a receiver list that is present but empty. */
  function ReceiverName(recv: Option<seq<Field>>): (r: Option<string>)
    ensures r.None? <==> recv == Some([])
    ensures recv.None? ==> r == Some(NoReceiver)
    ensures r.Some? && r.value != NoReceiver ==>
      recv.Some? && (recv.value[0].Type == Ident(r.value) || recv.value[0].Type == StarExpr(Ident(r.value)))
  {
    match recv
    case None => Some(NoReceiver)
    case Some(list) =>
      if |list| == 0 then None
      else
        match list[0].Type
        case Ident(name) => Some(name)
        case StarExpr(Ident(name)) => Some(name)
        case _ => Some(NoReceiver)
  }

  /** A receiver of type T or *T, with T an identifier, is recorded as "T". */
  lemma NamedReceiver(name: string, rest: seq<Field>)
    ensures ReceiverName(Some([Field(Ident(name))] + rest)) == Some(name)
    ensures ReceiverName(Some([Field(StarExpr(Ident(name)))] + rest)) == Some(name)
  {
  }

  /** Any other receiver type (a pointer to a non-identifier, or any other
      expression) is recorded as the sentinel. */
  lemma UnnamedReceiver(t: Expr, rest: seq<Field>)
    requires !t.Ident? && !(t.StarExpr? && t.X.Ident?)
    ensures ReceiverName(Some([Field(t)] + rest)) == Some(NoReceiver)
  {
  }

  /** Fields after the first never affect the receiver name. */
  lemma FirstFieldOnly(first: Field, rest1: seq<Field>, rest2: seq<Field>)
    ensures ReceiverName(Some([first] + rest1)) == ReceiverName(Some([first] + rest2))
  {
  }

  /** The visitor of visitor.go:34-39; the file set is abstracted away and
      the never-populated Structs list is not modelled. */
  class Visitor {
    const file: string
    var Functions: seq<FuncDef>

    constructor (file: string)
      ensures this.file == file && Functions == []
    {
      this.file := file;
      Functions := [];
    }

    /** visitor.go:56-85: a function declaration appends exactly one
        definition, carrying its name, this visitor's file, its receiver name
        and its span; any other node changes nothing. The visitor itself is
        returned so that the walk continues into the children. */
    method Visit(node: Node) returns (w: Visitor)
      requires node.FuncDecl? ==> ReceiverName(node.Recv).Some?
      modifies this`Functions
      ensures w == this
      ensures node.FuncDecl? ==>
        Functions == old(Functions) + [FuncDef(node.Name, file, ReceiverName(node.Recv).value,
                                              node.Pos.Line, node.Pos.Column, node.End.Line, node.End.Column)]
      ensures !node.FuncDecl? ==> Functions == old(Functions)
    {
      match node {
        case FuncDecl(name, recv, start, end) =>
          var rec := NoReceiver;
          if recv.Some? {
            match recv.value[0].Type {
              case Ident(n) => rec := n;
              case StarExpr(x) =>
                if x.Ident? {
                  rec := x.Name;
                }
              case OtherExpr =>
            }
          }
          var fe := FuncDef(name, file, rec, start.Line, start.Column, end.Line, end.Column);
          Functions := Functions + [fe];
        case OtherNode =>
      }
      w := this;
    }
  }
}
