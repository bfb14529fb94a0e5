/**
 * What the autocomplete promises: how the typed text is split, how the path is
 * walked, which fields are suggested and in what order, and what each
 * suggestion record holds.
 */
module AutoCompleteProperties {
  import opened Wrappers
  import opened PyStr
  import opened Seqs
  import opened Meta
  import opened Views

  // ---------------------------------------------------------------------------
  // Splitting the typed text

  lemma OccursAtChar(s: string, c: char, j: nat)
    ensures OccursAt(s, [c], j) <==> j < |s| && s[j] == c
  {
    if j < |s| && s[j] == c {
      assert s[j..j + 1] == [c];
    }
  }

  /** For a one-character needle, `find` is the first index holding that character. */
  lemma FindChar(s: string, c: char)
    ensures Find(s, [c]).Some? <==> c in s
    ensures Find(s, [c]).Some? ==> Find(s, [c]).value < |s| && s[Find(s, [c]).value] == c
                                   && c !in s[..Find(s, [c]).value]
  {
    if c in s {
      var j :| 0 <= j < |s| && s[j] == c;
      OccursAtChar(s, c, j);
    }
    if Find(s, [c]).Some? {
      var i := Find(s, [c]).value;
      OccursAtChar(s, c, i);
      forall j | 0 <= j < i
        ensures s[..i][j] != c
      {
        OccursAtChar(s, c, j);
      }
    }
  }

  /**
   * The separators are tried in order: the last space, else the first `(`,
   * else the first `::`; the prefix ends with the separator that won, and with
   * none of them the prefix is empty and the tail is the whole text.
   */
  lemma SplitQueryPrecedence(q: string)
    ensures var (prefix, tail) := SplitQuery(q);
            ' ' in q ==> |prefix| > 0 && prefix[|prefix| - 1] == ' ' && ' ' !in tail
    ensures var (prefix, tail) := SplitQuery(q);
            ' ' !in q && '(' in q ==> |prefix| > 0 && prefix[|prefix| - 1] == '(' && '(' !in prefix[..|prefix| - 1]
    ensures var (prefix, tail) := SplitQuery(q);
            ' ' !in q && '(' !in q && Contains(q, "::") ==>
              |prefix| >= 2 && prefix[|prefix| - 2..] == "::" && !Contains(prefix[..|prefix| - 1], "::")
    ensures var (prefix, tail) := SplitQuery(q);
            ' ' !in q && '(' !in q && !Contains(q, "::") ==> prefix == "" && tail == q
  {
    FindChar(q, '(');
    if ' ' in q {
    } else if '(' !in q && Contains(q, "::") {
      var i := Find(q, "::").value;
      BeforeFirstOccurrence(q, "::");
      assert q[..i + 2][..i + 1] == q[..i + 1];
    }
  }

  // ---------------------------------------------------------------------------
  // Walking the typed path

  /** Walking a path in two pieces is walking the first, then the second from where it ended. */
  lemma {:induction false} ResolveAppend(schema: Schema, model: string, p1: seq<string>, p2: seq<string>)
    ensures Resolve(schema, model, p1 + p2) ==
              match Resolve(schema, model, p1)
              case Ok(m) => Resolve(schema, m, p2)
              case Err(e) => Err(e)
    decreases |p1|
  {
    if p1 == [] {
      assert p1 + p2 == p2;
    } else {
      assert (p1 + p2)[0] == p1[0];
      assert (p1 + p2)[1..] == p1[1..] + p2;
      if model in schema {
        var f := FirstNamed(schema[model].fields, p1[0]);
        if f.Some? && f.value.related.Some? {
          ResolveAppend(schema, f.value.related.value, p1[1..], p2);
        }
      }
    }
  }

  /**
   * A path segment naming no field of the model reached so far makes the whole
   * request fail; it is not an empty list of suggestions.
   */
  lemma UnknownSegmentFails(schema: Schema, itg: Interrogator, modelName: string, q: string, i: nat, m: string)
    requires itg.validateReportModel(modelName).Some? && modelName != ""
    requires i < |PathOf(q)|
    requires Resolve(schema, itg.validateReportModel(modelName).value, PathOf(q)[..i]) == Ok(m)
    requires m in schema && FirstNamed(schema[m].fields, PathOf(q)[i]).None?
    ensures AutoComplete(schema, itg, modelName, q) == Err(NoSuchField(m, PathOf(q)[i]))
  {
    var path := PathOf(q);
    assert path == path[..i] + path[i..];
    ResolveAppend(schema, itg.validateReportModel(modelName).value, path[..i], path[i..]);
    assert path[i..][0] == path[i];
  }

  // ---------------------------------------------------------------------------
  // Which fields are suggested

  /** A field is suggested when its name contains the lower-cased lookup and it is not skipped. */
  function Candidate(ctx: Context): Field -> bool
  {
    (f: Field) => Contains(f.name, Lower(ctx.lookup)) && !Skipped(ctx, f)
  }

  /**
   * The records are those of the kept fields, one each and in order, and the
   * list fails exactly when some kept field's record fails.
   */
  lemma {:induction false} RecordsOfKept(ctx: Context, fields: seq<Field>)
    ensures Records(ctx, fields).Ok? <==> forall f :: f in Filter(fields, Kept(ctx)) ==> Describe(ctx, f).Ok?
    ensures Records(ctx, fields).Ok? ==>
              var kept := Filter(fields, Kept(ctx));
              && |Records(ctx, fields).value| == |kept|
              && forall k :: 0 <= k < |kept| ==> Describe(ctx, kept[k]) == Ok(Records(ctx, fields).value[k])
    decreases |fields|
  {
    if fields != [] {
      RecordsOfKept(ctx, fields[1..]);
      var kept := Filter(fields, Kept(ctx));
      if !Skipped(ctx, fields[0]) {
        assert kept == [fields[0]] + Filter(fields[1..], Kept(ctx));
        assert fields[0] in kept;
      }
    }
  }

  /**
   * For a request whose path resolves to `m`, the suggestions are exactly the
   * records of the fields of `m` whose name contains the lower-cased last
   * segment and which are not excluded, in the schema's order.
   */
  lemma AutoCompleteSuggests(schema: Schema, itg: Interrogator, modelName: string, q: string, m: string)
    requires itg.validateReportModel(modelName).Some? && modelName != ""
    requires Resolve(schema, itg.validateReportModel(modelName).value, PathOf(q)) == Ok(m)
    requires m in schema
    ensures var ctx := ContextOf(schema, itg, m, q);
            var cands := Filter(schema[m].fields, Candidate(ctx));
            && IsSubsequence(cands, schema[m].fields)
            && (forall f :: f in cands <==>
                  f in schema[m].fields && Contains(f.name, Lower(LookupOf(q))) && !Skipped(ctx, f))
            && (AutoComplete(schema, itg, modelName, q).Ok? <==> forall f :: f in cands ==> Describe(ctx, f).Ok?)
            && (AutoComplete(schema, itg, modelName, q).Ok? ==>
                  && |AutoComplete(schema, itg, modelName, q).value| == |cands|
                  && forall k :: 0 <= k < |cands| ==>
                       Describe(ctx, cands[k]) == Ok(AutoComplete(schema, itg, modelName, q).value[k]))
  {
    var ctx := ContextOf(schema, itg, m, q);
    var fields := schema[m].fields;
    var matching := Matching(fields, Lower(LookupOf(q)));
    FilterFilter(fields, NameContains(Lower(LookupOf(q))), Kept(ctx), Candidate(ctx));
    RecordsOfKept(ctx, matching);
    FilterIsSubsequence(fields, Candidate(ctx));
  }

  // ---------------------------------------------------------------------------
  // What each record holds

  /** The text before the last typed segment: the prefix and the typed path with its trailing dot. */
  function Stem(q: string): string
  {
    SplitQuery(q).0 + (if PathOf(q) == [] then "" else Join(PathOf(q), '.') + ".")
  }

  /** The prefix and the typed path extended by one more segment: the stem followed by that segment. */
  lemma StemThen(q: string, x: string)
    ensures SplitQuery(q).0 + Join(PathOf(q) + [x], '.') == Stem(q) + x
  {
    var prefix, path := SplitQuery(q).0, PathOf(q);
    JoinSnoc(path, x, '.');
    if path != [] {
      assert prefix + (Join(path, '.') + ['.'] + x) == prefix + (Join(path, '.') + ".") + x;
    }
  }

  /** The typed text is its stem followed by its last segment. */
  lemma QueryIsStemAndLookup(q: string)
    ensures q == Stem(q) + LookupOf(q)
  {
    var args := Segments(q);
    assert args == PathOf(q) + [LookupOf(q)];
    JoinSplit(SplitQuery(q).1, '.');
    StemThen(q, LookupOf(q));
  }

  lemma DescribeNames(ctx: Context, f: Field)
    requires Describe(ctx, f).Ok?
    ensures Describe(ctx, f).value.name == Join(ctx.path + [f.name], '.')
    ensures Describe(ctx, f).value.value == ctx.prefix + Describe(ctx, f).value.name
    ensures Describe(ctx, f).value.lookup == ctx.lookup
  {
  }

  /**
   * The typed text is the stem followed by the lookup, and a suggestion's value
   * is the same stem followed by the field's name: accepting a suggestion
   * completes the last segment.
   */
  lemma ValueCompletesQuery(schema: Schema, itg: Interrogator, m: string, q: string, f: Field, s: Suggestion)
    requires Describe(ContextOf(schema, itg, m, q), f) == Ok(s)
    ensures q == Stem(q) + s.lookup
    ensures s.value == Stem(q) + f.name
  {
    DescribeNames(ContextOf(schema, itg, m, q), f);
    QueryIsStemAndLookup(q);
    StemThen(q, f.name);
  }

  /** A suggestion's name splits back into the typed path and the field's name. */
  lemma NameSplitsBack(schema: Schema, itg: Interrogator, m: string, q: string, f: Field, s: Suggestion)
    requires Describe(ContextOf(schema, itg, m, q), f) == Ok(s)
    requires '.' !in f.name
    ensures Split(s.name, '.') == PathOf(q) + [f.name]
  {
    DescribeNames(ContextOf(schema, itg, m, q), f);
    var path := PathOf(q);
    assert forall p :: p in path ==> p in Segments(q);
    SplitJoin(path + [f.name], '.');
  }

  /** A related model's docstring becomes one tidy line of help text. */
  lemma CleanDocTidy(doc: string)
    ensures WellSpaced(CleanDoc(doc))
    ensures RemoveAll(CleanDoc(doc), ' ') == RemoveAll(Translate(FirstLine(doc)), ' ')
    ensures NonEmpty(Split(Translate(FirstLine(doc)), ' ')) != [] ==>
              Split(CleanDoc(doc), ' ') == NonEmpty(Split(Translate(FirstLine(doc)), ' '))
    ensures NonEmpty(Split(Translate(FirstLine(doc)), ' ')) == [] ==> CleanDoc(doc) == ""
    ensures (forall i :: 0 <= i < |doc| ==> 5 <= doc[i] as int) ==> '\n' !in CleanDoc(doc)
  {
    var line := FirstLine(doc);
    CollapseSpacesTidy(Translate(line));
    if forall i :: 0 <= i < |doc| ==> 5 <= doc[i] as int {
      var stripped := LStrip(doc, '\n');
      forall i | 0 <= i < |line|
        ensures Translate(line)[i] != '\n'
      {
        assert line[i] == stripped[i] == doc[|doc| - |stripped| + i];
        assert line[i] in line;
      }
    }
  }

  /**
   * `isRelation` marks exactly the fields that are not the model's own
   * columns; those take their help from the related model's docstring (or the
   * "Related model - " fallback when its `__doc__` is empty), the others their own help
   * text. A record fails only for a non-column field without a usable related model.
   */
  lemma DescribeHelp(ctx: Context, f: Field)
    ensures Describe(ctx, f).Err? <==> !f.concrete && (f.related.None? || f.related.value !in ctx.schema)
    ensures Describe(ctx, f).Ok? ==>
              var s := Describe(ctx, f).value;
              && s.isRelation == !f.concrete
              && s.lookup == ctx.lookup
              && (f.internalType.Some? ==> s.dataType == f.internalType.value)
              && (f.internalType.None? ==> s.dataType == ManyToManyLabel)
              && (f.concrete ==> s.help == f.helpText)
              && (!f.concrete && ctx.schema[f.related.value].doc == "" ==>
                    s.help == RelatedModelLabel + ctx.schema[f.related.value].verboseName)
              && (!f.concrete && ctx.schema[f.related.value].doc != "" ==>
                    && WellSpaced(s.help)
                    && RemoveAll(s.help, ' ') == RemoveAll(Translate(FirstLine(ctx.schema[f.related.value].doc)), ' ')
                    && (NonEmpty(Split(Translate(FirstLine(ctx.schema[f.related.value].doc)), ' ')) != [] ==>
                          Split(s.help, ' ') == NonEmpty(Split(Translate(FirstLine(ctx.schema[f.related.value].doc)), ' '))))
  {
    if !f.concrete && f.related.Some? && f.related.value in ctx.schema {
      CleanDocTidy(ctx.schema[f.related.value].doc);
    }
  }
}
