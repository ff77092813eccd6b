/**
 Output columns of every query block and CTE by repeated passes, and what they mean by
 reference.  Queries are read without correlation: no block sees relations of its parent.
 */
module Scopes {
  import opened SqlText
  import opened Tokenizer
  import opened ScopeParser
  import opened BlockParser
  import opened Projection
  import opened ProjectionMeaning
  import opened CteScopes

  /** A relation in FROM, with the columns found for it. */
  datatype Relation = Relation(id: int, isCte: bool, columns: seq<Text>, complete: bool)

  /** What has been found so far: by block, by the body of a CTE, and the relations of each block. */
  datatype Found = Found(projections: map<Range, Inference>, outputs: map<Range, Inference>, relations: map<Range,
                         seq<Relation>>)

  /** A physical table as a query names it. */
  datatype TableName = TableName(namespace: Option<Column>, name: Text, quoted: bool)

  function NameOf(ref: FromRef): TableName { TableName(ref.namespace, ref.name, ref.nameQuoted) }

  /**
   The query, what its blocks may see, and the columns of physical tables as the catalog gives them.  The words of
   the dialect's expressions are any; nothing but the reference meaning looks at them.
   */
  datatype Setting = Setting(
    lexer: Lexer,
    operators: OperatorWords,
    blocks: seq<Block>,
    environments: map<Range, seq<Cte>>,
    catalog: TableName -> Option<Inference>)

  function ProjectionOf(found: Found, id: Range): Inference {
    if id in found.projections then found.projections[id] else UNKNOWN
  }

  function AliasNames(aliases: seq<Column>, dialect: Dialect): (r: seq<Text>)
    ensures |r| == |aliases|
  {
    seq(|aliases|, i requires 0 <= i < |aliases| => IdentifierName(aliases[i].name, aliases[i].quoted, dialect))
  }

  /** How many columns a block has, as far as its syntax or its projection tells. */
  function Arity(s: Setting, found: Found, id: Range, fuel: nat): Option<nat>
    decreases fuel
  {
    match ById(s.blocks, id)
    case None => None
    case Some(block) =>
      if block.unsupported.Some? then None
      else if ProjectionOf(found, id).complete then Some(|ProjectionOf(found, id).columns|)
      else match block.setBranchIds
           case Some(ids) =>
             if fuel == 0 || ids == [] then None
             else
               var first := Arity(s, found, ids[0], fuel - 1);
               if first.Some? && forall i | 0 <= i < |ids| :: Arity(s, found, ids[i], fuel - 1) == first then first
               else None
           case None =>
             if block.selectItems == [] then None
             else if exists item | item in block.selectItems :: !CountsAsOne(s.lexer, item) then None
             else Some(|block.selectItems|)
  }

  /** A column alias list replaces the names, and settles the columns when their number is right. */
  function WithAliases(s: Setting, found: Found, output: Inference, aliases: Option<seq<Column>>,
                       body: Range): Inference {
    match aliases
    case None => output
    case Some(list) => Inference(AliasNames(list, s.lexer.dialect), Arity(s, found, body, |s.blocks|) == Some(|list|))
  }

  function RelationOf(relations: seq<Relation>, id: int): Option<Relation> {
    if relations == [] then None
    else if relations[0].id == id then Some(relations[0])
    else RelationOf(relations[1..], id)
  }

  function RelationsOf(found: Found, id: Range): seq<Relation> {
    if id in found.relations then found.relations[id] else []
  }

  function EnvironmentOf(s: Setting, id: Range): seq<Cte> {
    if id in s.environments then s.environments[id] else []
  }

  /** Are all relations of a block, or of its branches, complete?  A recursive reference may count as such. */
  predicate SourcesKnown(s: Setting, found: Found, id: Range, recursive: Option<Range>, fuel: nat)
    decreases fuel
  {
    match ById(s.blocks, id)
    case None => false
    case Some(block) =>
      block.unsupported.None? &&
      match block.setBranchIds
      case Some(ids) => fuel > 0 && forall i | 0 <= i < |ids| :: SourcesKnown(s, found, ids[i], recursive, fuel - 1)
      case None =>
        forall ref | ref in block.from ::
          match RelationOf(RelationsOf(found, id), ref.id)
          case None => false
          case Some(r) =>
            r.complete || (recursive.Some? && r.isCte &&
              match Pick(EnvironmentOf(s, id), ref, s.lexer.dialect)
              case None => false
              case Some(c) => c.bodyScopeId == recursive.value)
  }

  /** Completeness is withdrawn while a source is unknown. */
  function Guarded(output: Inference, known: bool): Inference {
    if output.complete && !known then output.(complete := false) else output
  }

  /** What a relation in FROM offers: a derived table's columns, a CTE's, or a physical table's. */
  function Binding(s: Setting, found: Found, block: Block, ref: FromRef): Relation {
    match ref.bodyScopeId
    case Some(body) =>
      var output := Guarded(WithAliases(s, found, ProjectionOf(found, body), ref.columnAliases, body),
                            SourcesKnown(s, found, body, None, |s.blocks|));
      Relation(ref.id, false, output.columns, output.complete)
    case None =>
      match if ref.namespace.None? then Pick(EnvironmentOf(s, block.id), ref, s.lexer.dialect) else None
      case Some(c) =>
        var output := if c.bodyScopeId in found.outputs then found.outputs[c.bodyScopeId] else UNKNOWN;
        Relation(ref.id, true, output.columns, output.complete)
      case None =>
        match s.catalog(NameOf(ref))
        case Some(output) => Relation(ref.id, false, output.columns, output.complete)
        case None => Relation(ref.id, false, [], false)
  }

  function Bindings(s: Setting, found: Found, block: Block): (r: seq<Relation>)
    ensures |r| == |block.from|
    ensures forall i | 0 <= i < |r| :: r[i] == Binding(s, found, block, block.from[i])
  {
    seq(|block.from|, i requires 0 <= i < |block.from| => Binding(s, found, block, block.from[i]))
  }

  /** The columns of complete relations. */
  function KnownColumns(relations: seq<Relation>): int -> Option<seq<Text>> {
    id => match RelationOf(relations, id)
          case None => None
          case Some(r) => if r.complete then Some(r.columns) else None
  }

  function BranchInferences(found: Found, ids: seq<Range>): (r: seq<Inference>)
    ensures |r| == |ids|
  {
    seq(|ids|, i requires 0 <= i < |ids| => ProjectionOf(found, ids[i]))
  }

  function Output(s: Setting, found: Found, block: Block): Inference {
    match block.setBranchIds
    case Some(ids) => CombineSqlSetProjection(BranchInferences(found, ids))
    case None => InferItems(s.lexer, block.selectItems, block.from, block.joinsMergeColumns,
                            KnownColumns(RelationsOf(found, block.id)), block.unsupported.None?
                            && block.selectItems != [])
  }

  /** One block in a pass: its relations bound anew, then its projection. */
  function BlockStep(s: Setting, found: Found, block: Block): Found {
    var bound := found.(relations := found.relations[block.id := Bindings(s, found, block)]);
    var output := Guarded(Output(s, bound, block), SourcesKnown(s, bound, block.id, None, |s.blocks|));
    bound.(projections := bound.projections[block.id := output])
  }

  /** One declaration in a pass; the names of a recursive one are those of its anchor. */
  function CteStep(s: Setting, found: Found, c: Cte): Found {
    var body := ById(s.blocks, c.bodyScopeId);
    var branches := if body.Some? && body.value.setBranchIds.Some? then body.value.setBranchIds.value else [];
    var anchored :=
      if c.recursive && branches != [] && ProjectionOf(found, branches[0]).complete
         && Arity(s, found, c.bodyScopeId, |s.blocks|) == Some(|ProjectionOf(found, branches[0]).columns|)
      then ProjectionOf(found, branches[0]) else ProjectionOf(found, c.bodyScopeId);
    var named := WithAliases(s, found, anchored, c.columnAliases, c.bodyScopeId);
    var recursive := if c.recursive && branches != [] && SourcesKnown(s, found, branches[0], None, |s.blocks|)
                     then Some(c.bodyScopeId) else None;
    found.(outputs := found.outputs[c.bodyScopeId := Guarded(named,
                                                             SourcesKnown(s, found, c.bodyScopeId, recursive,
                                                                          |s.blocks|))])
  }

  // ---- reference meaning ----

  function RenamedBy(shape: Shape, aliases: Option<seq<Column>>, dialect: Dialect): Shape {
    match aliases
    case None => shape
    case Some(list) =>
      if shape.Some? && |shape.value| == |list| then Some(WithNames(AliasNames(list, dialect))) else None
  }

  function TableShape(s: Setting, ref: FromRef): Shape {
    match s.catalog(NameOf(ref))
    case None => None
    case Some(output) => if output.complete then Some(WithNames(output.columns)) else None
  }

  /** A source means its body, its CTE by lexical scoping, or its table, each under the column names FROM gives it. */
  function SourceShape(s: Setting, meaning: Range -> Shape, k: nat, ref: FromRef): Shape
    requires k < |s.blocks|
  {
    var dialect := s.lexer.dialect;
    match ref.bodyScopeId
    case Some(body) => RenamedBy(meaning(body), ref.columnAliases, dialect)
    case None =>
      match if ref.namespace.None? then LookUp(s.blocks, k, ref, dialect) else None
      case Some(c) => RenamedBy(RenamedBy(meaning(c.bodyScopeId), c.columnAliases, dialect), ref.columnAliases, dialect)
      case None => RenamedBy(TableShape(s, ref), ref.columnAliases, dialect)
  }

  function FirstRef(refs: seq<FromRef>, id: int): Option<FromRef> {
    if refs == [] then None else if refs[0].id == id then Some(refs[0]) else FirstRef(refs[1..], id)
  }

  function SourceShapes(s: Setting, meaning: Range -> Shape, k: nat): int -> Shape
    requires k < |s.blocks|
  {
    id => match FirstRef(s.blocks[k].from, id)
          case None => None
          case Some(ref) => SourceShape(s, meaning, k, ref)
  }

  /** A set operation means its first branch, if all branches have as many columns; a SELECT means its items. */
  function BlockShape(s: Setting, meaning: Range -> Shape, k: nat): Shape
    requires k < |s.blocks|
  {
    var block := s.blocks[k];
    match block.setBranchIds
    case Some(ids) =>
      if ids == [] || meaning(ids[0]).None? then None
      else if forall i | 0 <= i < |ids| :: meaning(ids[i]).Some? && |meaning(ids[i]).value| == |meaning(ids[0]).value|
      then meaning(ids[0]) else None
    case None =>
      if block.unsupported.Some? || block.selectItems == [] then None
      else ItemsShape(s.lexer, s.operators, block.selectItems, block.from, block.joinsMergeColumns,
                      SourceShapes(s, meaning, k))
  }

  /** A meaning gives every block the shape that follows from the others. */
  ghost predicate Meaning(s: Setting, meaning: Range -> Shape) {
    forall k | 0 <= k < |s.blocks| :: meaning(s.blocks[k].id) == BlockShape(s, meaning, k)
  }

  /** Queries as the parser leaves them: nested, lexed, positions as identifiers, and no declaration recursive. */
  ghost predicate Plain(s: Setting) {
    && Treelike(s.blocks)
    && (forall k | 0 <= k < |s.blocks| ::
          && EnvironmentOf(s, s.blocks[k].id) == Visible(s.blocks, k, s.lexer.dialect)
          && (forall c | c in s.blocks[k].ctes :: !c.recursive)
          && (forall item | item in s.blocks[k].selectItems :: Lexed(item)))
    && (forall j, k | 0 <= j < |s.blocks| && 0 <= k < |s.blocks| ::
          forall c, d | c in s.blocks[j].ctes && d in s.blocks[k].ctes :: c.bodyScopeId == d.bodyScopeId ==> c == d)
  }

  /** No relation but a derived table is given column names in FROM. */
  ghost predicate NoTableAliases(s: Setting) {
    forall k | 0 <= k < |s.blocks| :: forall ref | ref in s.blocks[k].from ::
      ref.bodyScopeId.None? ==> ref.columnAliases.None?
  }

  /** No select item ends in an operator's operand or in a closing word. */
  predicate NoOperatorNames(s: Setting) {
    forall b | b in s.blocks :: NoneInOperator(s.lexer, s.operators, b.selectItems)
  }

  /** What is flagged complete is what the reference says. */
  ghost predicate Right(shape: Shape, output: Inference) {
    output.complete ==> shape == Some(WithNames(output.columns))
  }

  ghost predicate SoundProjections(s: Setting, meaning: Range -> Shape, found: Found) {
    forall id | id in found.projections :: Right(meaning(id), found.projections[id])
  }

  ghost predicate SoundOutputs(s: Setting, meaning: Range -> Shape, found: Found) {
    forall k, c | 0 <= k < |s.blocks| && c in s.blocks[k].ctes :: c.bodyScopeId in found.outputs ==>
      Right(RenamedBy(meaning(c.bodyScopeId), c.columnAliases, s.lexer.dialect), found.outputs[c.bodyScopeId])
  }

  ghost predicate SoundRelations(s: Setting, meaning: Range -> Shape, found: Found) {
    forall k | 0 <= k < |s.blocks| && s.blocks[k].id in found.relations ::
      var rs := found.relations[s.blocks[k].id];
      |rs| == |s.blocks[k].from| && forall i | 0 <= i < |rs| ::
        rs[i].id == s.blocks[k].from[i].id
        && Right(SourceShape(s, meaning, k, s.blocks[k].from[i]), Inference(rs[i].columns, rs[i].complete))
  }

  ghost predicate Sound(s: Setting, meaning: Range -> Shape, found: Found) {
    SoundProjections(s, meaning, found) && SoundOutputs(s, meaning, found) && SoundRelations(s, meaning, found)
  }
}
