/** The optional-value datatype used for AST properties a node may lack. */
module Wrappers {

  /** `None` stands for a JavaScript property that is absent (undefined). */
  datatype Option<+T> = None | Some(value: T)
}
