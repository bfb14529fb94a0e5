/**
 * A self-owned stand-in for the ORM's model metadata: each model name maps to
 * the model's docstring, the text its verbose name renders as, and its fields
 * in the order the metadata lists them.
 */
module Meta {
  import opened Wrappers
  import opened Seqs

  /**
   * One entry of a model's field list. `related` is the model a relation points
   * to; `concrete` says the field is listed among the model's own columns (its
   * `fields`, as opposed to reverse and many-to-many relations); `internalType`
   * is absent for fields that report no internal type.
   */
  datatype Field = Field(
    name: string,
    related: Option<string>,
    concrete: bool,
    helpText: string,
    internalType: Option<string>)

  /** `doc` is the class's `__doc__`; the framework supplies one when the class declares none, so it is "" only when set empty. */
  datatype Model = Model(doc: string, verboseName: string, fields: seq<Field>)

  type Schema = map<string, Model>

  function NameIs(name: string): Field -> bool
  {
    (f: Field) => f.name == name
  }

  /** `[f for f in fields if f.name == name][0]`, with None where that list is empty. */
  function FirstNamed(fields: seq<Field>, name: string): (r: Option<Field>)
    ensures r.None? <==> forall f :: f in fields ==> f.name != name
    ensures r.Some? ==> r.value in fields && r.value.name == name
  {
    var named := Filter(fields, NameIs(name));
    if named == [] then None else assert named[0] in named; Some(named[0])
  }

  /** The field found is the earliest one carrying the name. */
  lemma {:induction false} FirstNamedIsFirst(fields: seq<Field>, name: string)
    requires FirstNamed(fields, name).Some?
    ensures exists i :: 0 <= i < |fields| && fields[i] == FirstNamed(fields, name).value
                        && forall j :: 0 <= j < i ==> fields[j].name != name
    decreases |fields|
  {
    if fields[0].name != name {
      assert FirstNamed(fields[1..], name) == FirstNamed(fields, name);
      FirstNamedIsFirst(fields[1..], name);
      var i :| 0 <= i < |fields[1..]| && fields[1..][i] == FirstNamed(fields, name).value
               && forall j :: 0 <= j < i ==> fields[1..][j].name != name;
      assert fields[i + 1] == fields[1..][i];
    } else {
      assert fields[0] == FirstNamed(fields, name).value;
    }
  }
}
