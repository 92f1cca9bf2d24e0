/**
 The variable-reference types the tokenizer attaches to symbols. They belong to the language's
 syntax tree (`ast.rs`), which is not part of this model beyond these declarations.
 */
module Ast {

  /** Type annotation of a variable reference; `Auto` when the name carries no sigil. */
  datatype VarType = Auto | Boolean | Double | Integer | Text

  /** A reference to a variable by name, with its optional type annotation. */
  datatype VarRef = VarRef(name: string, vtype: VarType)

  /** The sigil that spells a type annotation after a name; `Auto` has none. */
  function Annotation(t: VarType): (a: string)
    ensures t == Auto <==> a == ""
    ensures |a| <= 1
  {
    match t
    case Auto => ""
    case Boolean => "?"
    case Double => "#"
    case Integer => "%"
    case Text => "$"
  }

  /** Printed form of a variable reference: its name followed by the sigil of its type. */
  function ShowVarRef(v: VarRef): string {
    v.name + Annotation(v.vtype)
  }
}
