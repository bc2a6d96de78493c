/**
 * The part of the tree produced by the babylon parser (in module mode) that
 * the manifest generator looks at: the top-level statements of
 * `ast.program.body`, the identifier and parameters of a function
 * declaration, and the comments attached in front of it.
 */
module Ast {
  import opened Wrappers

  /** A comment node; babylon tells block comments from line comments by `type`. */
  datatype Comment =
    | CommentBlock(value: string)   // `/* ... */`, value without the delimiters
    | CommentLine(value: string)    // `// ...`

  /** An `Identifier` node. */
  datatype Identifier = Identifier(name: string)

  /**
   * A formal parameter node. `nodeType` is its babylon `type` ("Identifier",
   * "AssignmentPattern", "ObjectPattern", ...); only an `Identifier` has a
   * `name`, so for the other patterns the property is absent.
   */
  datatype Param = Param(nodeType: string, name: Option<string>)

  /**
   * A top-level statement. `leadingComments` is absent when the parser
   * attached no comment to the node, and present (possibly empty) otherwise.
   * `Other` stands for every node whose `type` is not "FunctionDeclaration"
   * (variable declarations, expression statements, imports, and also
   * `export function ...`, which babylon wraps in an ExportNamedDeclaration).
   */
  datatype Statement =
    | FunctionDeclaration(id: Identifier, params: seq<Param>, leadingComments: Option<seq<Comment>>)
    | Other
}
