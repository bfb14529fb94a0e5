/**
 * The two views of the query builder: the table view's decision whether to
 * interrogate at all, and the autocomplete endpoint that suggests field names
 * for a partly typed, dotted field path.
 */
module Views {
  import opened Wrappers
  import opened PyStr
  import opened Seqs
  import opened Meta

  /**
   * The parts of the interrogator the views call. `validateReportModel` gives
   * the model a report may use, or None where validation raises;
   * `isExcludedField(model, field)` and `isExcludedModel(model)` are the
   * exclusion tests; `normaliseField` rewrites a field name before the test.
   */
  datatype Interrogator = Interrogator(
    validateReportModel: string -> Option<string>,
    isExcludedField: (string, string) -> bool,
    isExcludedModel: string -> bool,
    normaliseField: string -> string)

  // ---------------------------------------------------------------------------
  // The table view

  /** Python's `any([True for c in columns if c != ''])`. */
  function HasValidColumns(columns: seq<string>): (r: bool)
    ensures r <==> exists c :: c in columns && c != ""
  {
    if columns == [] then false
    else
      assert columns[0] in columns;
      assert forall c :: c in columns <==> c == columns[0] || c in columns[1..];
      columns[0] != "" || HasValidColumns(columns[1..])
  }

  /** What the table view does with a request. */
  datatype TablePage =
    | BlankForm      // unbound form, no data
    | InvalidForm    // bound form that failed validation, no data
    | AdminRedirect  // a staff member asked to save the report
    | Results        // the interrogator's answer, rendered with the form

  /**
   * The branches of the table view: it interrogates only for a GET carrying at
   * least one non-empty column and a valid form, and only staff asking for
   * `action=makestatic` are redirected instead.
   */
  function TableView(httpMethod: string, columns: seq<string>, formValid: bool, isStaff: bool, action: string): (r: TablePage)
    ensures r.Results? || r.AdminRedirect? <==> httpMethod == "GET" && (exists c :: c in columns && c != "") && formValid
    ensures r.AdminRedirect? <==> r != BlankForm && r != InvalidForm && isStaff && action == "makestatic"
    ensures r.BlankForm? <==> httpMethod != "GET" || forall c :: c in columns ==> c == ""
  {
    if httpMethod == "GET" && HasValidColumns(columns) then
      if !formValid then InvalidForm
      else if isStaff && action == "makestatic" then AdminRedirect
      else Results
    else BlankForm
  }

  // ---------------------------------------------------------------------------
  // The autocomplete endpoint

  /** One entry of the autocomplete's JSON answer. */
  datatype Suggestion = Suggestion(
    value: string,
    lookup: string,
    name: string,
    isRelation: bool,
    help: string,
    dataType: string)

  /** The exceptions the autocomplete lets escape (the server answers with an error). */
  datatype Failure =
    | UnknownModel(model: string)               // a model the schema does not hold
    | NoSuchField(model: string, segment: string) // a path segment naming no field of the model
    | NotARelation(model: string, segment: string) // a path segment naming a field with no related model
    | NoRelatedModel(model: string, field: string) // a non-concrete field with no related model

  const ManyToManyLabel: string := "Many to many relationship"
  const RelatedModelLabel: string := "Related model - "

  /**
   * Separates the typed text into an ignored prefix and the tail to complete:
   * after the last space, else after the first `(`, else after the first `::`.
   */
  function SplitQuery(q: string): (r: (string, string))
    ensures r.0 + r.1 == q
  {
    match RFind(q, ' ')
    case Some(i) => (q[..i + 1], q[i + 1..])
    case None =>
      match Find(q, "(")
      case Some(i) => (q[..i + 1], q[i + 1..])
      case None =>
        match Find(q, "::")
        case Some(i) => (q[..i + 2], q[i + 2..])
        case None => ("", q)
  }

  /** The dotted pieces of the tail: `tail.split('.')`. */
  function Segments(q: string): (r: seq<string>)
    ensures |r| >= 1
  {
    Split(SplitQuery(q).1, '.')
  }

  /** The path typed before the last segment: `args[:-1]`. */
  function PathOf(q: string): seq<string>
  {
    Segments(q)[..|Segments(q)| - 1]
  }

  /** The last, partly typed segment: `args[-1]`. */
  function LookupOf(q: string): string
  {
    Segments(q)[|Segments(q)| - 1]
  }

  /**
   * Follows `path` from `model`: each segment picks the first field of that
   * name and moves to the model it relates to.
   */
  function Resolve(schema: Schema, model: string, path: seq<string>): Result<string, Failure>
    decreases |path|
  {
    if path == [] then Ok(model)
    else if model !in schema then Err(UnknownModel(model))
    else
      match FirstNamed(schema[model].fields, path[0])
      case None => Err(NoSuchField(model, path[0]))
      case Some(f) =>
        match f.related
        case None => Err(NotARelation(model, path[0]))
        case Some(next) => Resolve(schema, next, path[1..])
  }

  /** Fields whose name contains `needle`: `[f for f in fields if needle in f.name]`. */
  function NameContains(needle: string): Field -> bool
  {
    (f: Field) => Contains(f.name, needle)
  }

  function Matching(fields: seq<Field>, needle: string): (r: seq<Field>)
    ensures forall f :: f in r <==> f in fields && Contains(f.name, needle)
    ensures forall f :: multiset(r)[f] == if Contains(f.name, needle) then multiset(fields)[f] else 0
    ensures IsSubsequence(r, fields)
  {
    FilterCounts(fields, NameContains(needle));
    FilterIsSubsequence(fields, NameContains(needle));
    Filter(fields, NameContains(needle))
  }

  /** What one autocomplete call knows once the path is resolved to `model`. */
  datatype Context = Context(
    schema: Schema,
    itg: Interrogator,
    model: string,
    prefix: string,
    path: seq<string>,
    lookup: string)

  /** The two `continue`s of the suggestion loop. */
  predicate Skipped(ctx: Context, f: Field)
  {
    || ctx.itg.isExcludedField(ctx.model, ctx.itg.normaliseField(f.name))
    || (f.related.Some? && ctx.itg.isExcludedModel(f.related.value))
  }

  function Kept(ctx: Context): Field -> bool
  {
    (f: Field) => !Skipped(ctx, f)
  }

  /** The first line of a docstring once leading newlines are dropped. */
  function FirstLine(doc: string): (r: string)
    ensures '\n' !in r
    ensures r <= LStrip(doc, '\n')
    ensures |r| < |LStrip(doc, '\n')| ==> LStrip(doc, '\n')[|r|] == '\n'
  {
    SplitHead(LStrip(doc, '\n'), '\n');
    assert Split(LStrip(doc, '\n'), '\n')[0] in Split(LStrip(doc, '\n'), '\n');
    Split(LStrip(doc, '\n'), '\n')[0]
  }

  /**
   * A related model's docstring made into one line of help text: the words of
   * its translated first line, one space apart.
   */
  function CleanDoc(doc: string): (r: string)
    ensures WellSpaced(r)
    ensures var words := NonEmpty(Split(Translate(FirstLine(doc)), ' '));
            (words != [] ==> Split(r, ' ') == words) && (words == [] ==> r == "")
  {
    CollapseSpaces(Translate(FirstLine(doc)))
  }

  /** The help text of a field that is not one of the model's own columns. */
  function RelationHelp(schema: Schema, model: string, f: Field): (r: Result<string, Failure>)
    ensures r.Err? <==> f.related.None? || f.related.value !in schema
    ensures r.Ok? && schema[f.related.value].doc == "" ==>
              r.value == RelatedModelLabel + schema[f.related.value].verboseName
    ensures r.Ok? && schema[f.related.value].doc != "" ==> r.value == CleanDoc(schema[f.related.value].doc)
  {
    match f.related
    case None => Err(NoRelatedModel(model, f.name))
    case Some(rel) =>
      if rel !in schema then Err(UnknownModel(rel))
      else if schema[rel].doc == "" then Ok(RelatedModelLabel + schema[rel].verboseName)
      else Ok(CleanDoc(schema[rel].doc))
  }

  /** The field's internal type, or the many-to-many label for a field reporting none. */
  function DataType(f: Field): (r: string)
    ensures f.internalType.Some? ==> r == f.internalType.value
    ensures f.internalType.None? ==> r == ManyToManyLabel
  {
    match f.internalType
    case Some(t) => t
    case None => ManyToManyLabel
  }

  /** The suggestion record built for a field that passed the filters. */
  function Describe(ctx: Context, f: Field): (r: Result<Suggestion, Failure>)
    ensures r.Err? <==> !f.concrete && (f.related.None? || f.related.value !in ctx.schema)
    ensures r.Ok? ==> r.value.isRelation == !f.concrete && r.value.dataType == DataType(f)
    ensures r.Ok? && f.concrete ==> r.value.help == f.helpText
    ensures r.Ok? && !f.concrete ==> r.value.help == RelationHelp(ctx.schema, ctx.model, f).value
  {
    var name := Join(ctx.path + [f.name], '.');
    var help := if f.concrete then Ok(f.helpText) else RelationHelp(ctx.schema, ctx.model, f);
    match help
    case Err(e) => Err(e)
    case Ok(h) => Ok(Suggestion(ctx.prefix + name, ctx.lookup, name, !f.concrete, h, DataType(f)))
  }

  function Prepend<T, E>(xs: seq<T>, r: Result<seq<T>, E>): Result<seq<T>, E>
  {
    match r
    case Ok(ys) => Ok(xs + ys)
    case Err(e) => Err(e)
  }

  lemma PrependNil<T, E>(r: Result<seq<T>, E>)
    ensures Prepend([], r) == r
  {
    if r.Ok? {
      assert [] + r.value == r.value;
    }
  }

  lemma PrependTwice<T, E>(xs: seq<T>, ys: seq<T>, r: Result<seq<T>, E>)
    ensures Prepend(xs + ys, r) == Prepend(xs, Prepend(ys, r))
  {
    if r.Ok? {
      assert (xs + ys) + r.value == xs + (ys + r.value);
    }
  }

  /** The records of the fields that are not skipped, in order; the first failure aborts. */
  function Records(ctx: Context, fields: seq<Field>): Result<seq<Suggestion>, Failure>
    decreases |fields|
  {
    if fields == [] then Ok([])
    else if Skipped(ctx, fields[0]) then Records(ctx, fields[1..])
    else
      match Describe(ctx, fields[0])
      case Err(e) => Err(e)
      case Ok(s) => Prepend([s], Records(ctx, fields[1..]))
  }

  /** The context of a query whose path resolved to `model`. */
  function ContextOf(schema: Schema, itg: Interrogator, model: string, q: string): Context
  {
    Context(schema, itg, model, SplitQuery(q).0, PathOf(q), LookupOf(q))
  }

  /** The answer of the autocomplete for `?model=modelName&q=q`: `Ok([])` is the blank response. */
  function AutoComplete(schema: Schema, itg: Interrogator, modelName: string, q: string): (r: Result<seq<Suggestion>, Failure>)
    ensures itg.validateReportModel(modelName).None? || modelName == "" ==> r == Ok([])
    ensures itg.validateReportModel(modelName).Some? && modelName != ""
            && Resolve(schema, itg.validateReportModel(modelName).value, PathOf(q)).Err? ==>
              r == Err(Resolve(schema, itg.validateReportModel(modelName).value, PathOf(q)).error)
  {
    match itg.validateReportModel(modelName)
    case None => Ok([])
    case Some(start) =>
      if modelName == "" then Ok([])
      else
        match Resolve(schema, start, PathOf(q))
        case Err(e) => Err(e)
        case Ok(m) =>
          if m !in schema then Err(UnknownModel(m))
          else Records(ContextOf(schema, itg, m, q), Matching(schema[m].fields, Lower(LookupOf(q))))
  }

  /** The autocomplete view's `get`, step by step. */
  method Get(schema: Schema, itg: Interrogator, modelName: string, q: string)
    returns (response: Result<seq<Suggestion>, Failure>)
    ensures itg.validateReportModel(modelName).None? || modelName == "" ==> response == Ok([])
    ensures response == AutoComplete(schema, itg, modelName, q)
  {
    var validated := itg.validateReportModel(modelName);
    if validated.None? {
      return Ok([]);
    }
    if modelName == "" {
      return Ok([]);
    }

    var (prefix, tail) := SplitQuery(q);
    var args := Split(tail, '.');
    var path := args[..|args| - 1];
    var lookup := args[|args| - 1];
    assert args == Segments(q) && path == PathOf(q) && lookup == LookupOf(q);

    var resolved := WalkPath(schema, validated.value, path);
    if resolved.Err? {
      return Err(resolved.error);
    }
    var model := resolved.value;
    if model !in schema {
      return Err(UnknownModel(model));
    }
    var fields := Matching(schema[model].fields, Lower(lookup));
    var ctx := Context(schema, itg, model, prefix, path, lookup);
    assert ctx == ContextOf(schema, itg, model, q);
    response := BuildSuggestions(ctx, fields);
  }

  /** The loop that moves `model` along the typed path. */
  method WalkPath(schema: Schema, start: string, path: seq<string>) returns (r: Result<string, Failure>)
    ensures r == Resolve(schema, start, path)
  {
    var model := start;
    for i := 0 to |path|
      invariant Resolve(schema, start, path) == Resolve(schema, model, path[i..])
    {
      assert path[i..][1..] == path[i + 1..];
      if model !in schema {
        return Err(UnknownModel(model));
      }
      var f := FirstNamed(schema[model].fields, path[i]);
      if f.None? {
        return Err(NoSuchField(model, path[i]));
      }
      if f.value.related.None? {
        return Err(NotARelation(model, path[i]));
      }
      model := f.value.related.value;
    }
    return Ok(model);
  }

  /** The loop that builds one record per matching field, skipping excluded ones. */
  method BuildSuggestions(ctx: Context, fields: seq<Field>) returns (r: Result<seq<Suggestion>, Failure>)
    ensures r == Records(ctx, fields)
  {
    var out: seq<Suggestion> := [];
    assert fields[0..] == fields;
    PrependNil(Records(ctx, fields));
    for k := 0 to |fields|
      invariant Records(ctx, fields) == Prepend(out, Records(ctx, fields[k..]))
    {
      var f := fields[k];
      assert fields[k..][1..] == fields[k + 1..];
      if ctx.itg.isExcludedField(ctx.model, ctx.itg.normaliseField(f.name)) {
        continue;
      }
      if f.related.Some? && ctx.itg.isExcludedModel(f.related.value) {
        continue;
      }
      var fieldName := Join(ctx.path + [f.name], '.');
      var isRelation := false;
      var help: string;
      if !f.concrete {
        if f.related.None? {
          return Err(NoRelatedModel(ctx.model, f.name));
        }
        var rel := f.related.value;
        if rel !in ctx.schema {
          return Err(UnknownModel(rel));
        }
        isRelation := true;
        if ctx.schema[rel].doc == "" {
          help := RelatedModelLabel + ctx.schema[rel].verboseName;
        } else {
          help := CleanDoc(ctx.schema[rel].doc);
        }
      } else {
        help := f.helpText;
      }
      var dataType := if f.internalType.Some? then f.internalType.value else ManyToManyLabel;
      var s := Suggestion(ctx.prefix + fieldName, ctx.lookup, fieldName, isRelation, help, dataType);
      assert Describe(ctx, f) == Ok(s);
      PrependTwice(out, [s], Records(ctx, fields[k + 1..]));
      out := out + [s];
    }
    assert out + [] == out;
    return Ok(out);
  }
}
