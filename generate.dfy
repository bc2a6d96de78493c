/**
 * The manifest generator of lib/generate.js: from the top-level statements of
 * a parsed adaptor module it keeps the function declarations not named
 * `execute` or `_toConsumableArray`, in source order, and describes each by
 * its name, its parameters and the text of its leading block comments.
 */
module Generate {
  import opened Wrappers
  import opened Ast
  import opened JsArrays

  /** The `docs` value of a declaration that has no leading comments at all. */
  const NoDocs: string := "none."

  /** A parameter as written to the manifest: its `name` and `type`, copied. */
  datatype FormattedParam = FormattedParam(name: Option<string>, nodeType: string)

  /** The `docs` property: the sentinel string, or a list of comment texts. */
  datatype Docs = DocString(text: string) | DocList(values: seq<string>)

  /** One manifest entry. */
  datatype FormattedFunction = FormattedFunction(name: string, params: seq<FormattedParam>, docs: Docs)

  // ---------------------------------------------------------------------------
  // Selecting the exported functions
  // ---------------------------------------------------------------------------

  /** The first filter's callback: `item.type == "FunctionDeclaration"`. */
  predicate IsFunctionDeclaration(item: Statement) {
    item.FunctionDeclaration?
  }

  /**
   * The second filter's callback: the name is neither "execute" nor
   * "_toConsumableArray". The chain only hands it function declarations.
   */
  predicate NotReserved(item: Statement) {
    item.FunctionDeclaration? ==> item.id.name != "execute" && item.id.name != "_toConsumableArray"
  }

  /** What the two chained filters select, as one condition on a statement. */
  predicate Selected(item: Statement) {
    item.FunctionDeclaration? && item.id.name != "execute" && item.id.name != "_toConsumableArray"
  }

  /** `exportedFunctions`: the body filtered by kind, then by name. */
  function ExportedFunctions(body: seq<Statement>): (r: seq<Statement>)
    ensures forall k :: 0 <= k < |r| ==> r[k] in body && Selected(r[k])
    ensures forall i :: 0 <= i < |body| && Selected(body[i]) ==> body[i] in r
  {
    Filter(Filter(body, IsFunctionDeclaration), NotReserved)
  }

  /** The two chained filters are one filter on `Selected`. */
  lemma ExportedIsFilterSelected(body: seq<Statement>)
    ensures ExportedFunctions(body) == Filter(body, Selected)
  {
    FilterFilter(body, IsFunctionDeclaration, NotReserved, Selected);
  }

  // ---------------------------------------------------------------------------
  // Formatting one declaration
  // ---------------------------------------------------------------------------

  /** The `params` map's callback. */
  function FormatParam(p: Param): FormattedParam {
    FormattedParam(p.name, p.nodeType)
  }

  /** `item.params.map(...)`: each parameter's `name` and `type`, in order. */
  function FormatParams(ps: seq<Param>): (r: seq<FormattedParam>)
    ensures |r| == |ps|
    ensures forall i :: 0 <= i < |ps| ==> r[i].name == ps[i].name && r[i].nodeType == ps[i].nodeType
  {
    Map(ps, FormatParam)
  }

  /** The comment filter's callback: `item.type == "CommentBlock"`. */
  predicate IsBlock(c: Comment) {
    c.CommentBlock?
  }

  /** The comment map's callback: `item.value`. */
  function ValueOf(c: Comment): string {
    c.value
  }

  /** The texts of the block comments, filtered then mapped. */
  function BlockValues(cs: seq<Comment>): (r: seq<string>)
    ensures |r| == Count(cs, IsBlock)
  {
    FilterLength(cs, IsBlock);
    Map(Filter(cs, IsBlock), ValueOf)
  }

  /**
   * A reference definition of the block-comment texts, one comment at a
   * time: a block comment contributes its text, a line comment nothing.
   */
  function BlockTexts(cs: seq<Comment>): seq<string> {
    if cs == [] then []
    else match cs[0]
      case CommentBlock(v) => [v] + BlockTexts(cs[1..])
      case CommentLine(_) => BlockTexts(cs[1..])
  }

  /** The filter-then-map chain computes the reference definition. */
  lemma {:induction false} BlockValuesIsBlockTexts(cs: seq<Comment>)
    ensures BlockValues(cs) == BlockTexts(cs)
  {
    if cs != [] {
      BlockValuesIsBlockTexts(cs[1..]);
      var rest := Filter(cs[1..], IsBlock);
      if IsBlock(cs[0]) {
        assert Filter(cs, IsBlock) == [cs[0]] + rest;
        assert Map([cs[0]] + rest, ValueOf) == [cs[0].value] + Map(rest, ValueOf);
      } else {
        assert Filter(cs, IsBlock) == rest;
      }
    }
  }

  /** Each block comment's text is kept, after those of earlier block comments. */
  lemma BlockValuesAt(cs: seq<Comment>, i: nat)
    requires i < |cs| && cs[i].CommentBlock?
    ensures Count(cs[..i], IsBlock) < |BlockValues(cs)|
    ensures BlockValues(cs)[Count(cs[..i], IsBlock)] == cs[i].value
  {
    FilterAt(cs, IsBlock, i);
  }

  /** Every kept text is that of a block comment, at its rank among them. */
  lemma BlockValuesFrom(cs: seq<Comment>, k: nat)
    requires k < |BlockValues(cs)|
    ensures exists i :: 0 <= i < |cs| && cs[i].CommentBlock? && Count(cs[..i], IsBlock) == k
                        && BlockValues(cs)[k] == cs[i].value
  {
    FilterLength(cs, IsBlock);
    FilterFrom(cs, IsBlock, k);
  }

  /**
   * A present comment list yields an empty docs list, and never the
   * sentinel, exactly when every comment in it is a line comment.
   */
  lemma DocsEmptyList(cs: seq<Comment>)
    ensures DocsOf(Some(cs)) == DocList([]) <==> forall i :: 0 <= i < |cs| ==> cs[i].CommentLine?
    ensures DocsOf(Some(cs)) != DocString(NoDocs)
  {
    FilterEmpty(cs, IsBlock);
  }

  /**
   * The `docs` conditional: a present comment list, even an empty one or one
   * of line comments only, gives the list of block-comment texts; only an
   * absent list gives the sentinel.
   */
  function DocsOf(leadingComments: Option<seq<Comment>>): (r: Docs)
    ensures r == DocString(NoDocs) <==> leadingComments.None?
    ensures leadingComments.Some? ==> r == DocList(BlockTexts(leadingComments.value))
  {
    if leadingComments.Some? then
      BlockValuesIsBlockTexts(leadingComments.value);
      DocList(BlockValues(leadingComments.value))
    else
      DocString(NoDocs)
  }

  /** The `formattedFunctions` map's callback. */
  function Format(item: Statement): (r: FormattedFunction)
    requires item.FunctionDeclaration?
    ensures r.name == item.id.name
    ensures |r.params| == |item.params|
    ensures forall i :: 0 <= i < |item.params| ==>
              r.params[i].name == item.params[i].name && r.params[i].nodeType == item.params[i].nodeType
    ensures r.docs == DocString(NoDocs) <==> item.leadingComments.None?
    ensures item.leadingComments.Some? ==> r.docs == DocList(BlockTexts(item.leadingComments.value))
  {
    FormattedFunction(item.id.name, FormatParams(item.params), DocsOf(item.leadingComments))
  }

  // ---------------------------------------------------------------------------
  // The whole transformation
  // ---------------------------------------------------------------------------

  /** `formattedFunctions`: the value handed to `JSON.stringify`. */
  function Generate(body: seq<Statement>): (r: seq<FormattedFunction>)
    ensures |r| == |ExportedFunctions(body)|
    ensures forall k :: 0 <= k < |r| ==> r[k] == Format(ExportedFunctions(body)[k])
    ensures forall k :: 0 <= k < |r| ==> r[k].name != "execute" && r[k].name != "_toConsumableArray"
  {
    var exported := ExportedFunctions(body);
    Map(exported, Format)
  }

  /** The manifest has one entry per selected declaration. */
  lemma GenerateLength(body: seq<Statement>)
    ensures |Generate(body)| == Count(body, Selected)
  {
    ExportedIsFilterSelected(body);
    FilterLength(body, Selected);
  }

  /**
   * Every function declaration with another name is described, at the
   * position given by the number of selected declarations before it.
   */
  lemma GenerateKeeps(body: seq<Statement>, i: nat)
    requires i < |body| && body[i].FunctionDeclaration?
    requires body[i].id.name != "execute" && body[i].id.name != "_toConsumableArray"
    ensures Count(body[..i], Selected) < |Generate(body)|
    ensures Generate(body)[Count(body[..i], Selected)] == Format(body[i])
  {
    ExportedIsFilterSelected(body);
    FilterAt(body, Selected, i);
  }

  /**
   * Every entry describes a function declaration of the body whose name is
   * not reserved, and the k-th entry describes the k-th such declaration.
   */
  lemma GenerateComesFrom(body: seq<Statement>, k: nat)
    requires k < |Generate(body)|
    ensures exists i :: 0 <= i < |body| && Selected(body[i]) && Count(body[..i], Selected) == k
                        && Generate(body)[k] == Format(body[i])
  {
    ExportedIsFilterSelected(body);
    FilterFrom(body, Selected, k);
  }

  /** Entries appear in the order of their declarations in the body. */
  lemma GenerateOrder(body: seq<Statement>, i: nat, j: nat)
    requires i < j < |body| && Selected(body[i]) && Selected(body[j])
    ensures Count(body[..i], Selected) < Count(body[..j], Selected) < |Generate(body)|
  {
    FilterOrder(body, Selected, i, j);
    GenerateKeeps(body, j);
  }

  /** Statements other than function declarations never contribute an entry. */
  lemma GenerateIgnoresOthers(a: seq<Statement>, b: seq<Statement>)
    ensures Generate(a + [Other] + b) == Generate(a + b)
  {
    var withOther := a + [Other] + b;
    assert Filter([Other], Selected) == [] by {
      assert [Other][1..] == [];
    }
    FilterAppend(a, [Other], Selected);
    assert Filter(a + [Other], Selected) == Filter(a, Selected);
    FilterAppend(a + [Other], b, Selected);
    FilterAppend(a, b, Selected);
    assert Filter(withOther, Selected) == Filter(a + b, Selected);
    ExportedIsFilterSelected(withOther);
    ExportedIsFilterSelected(a + b);
  }
}
