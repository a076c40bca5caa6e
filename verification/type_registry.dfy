/**
 * The product-type registry (`useTypeForm`): a small form validated by a
 * schema, and an in-memory list of registered types that submissions append
 * to and deletions filter. The clock is a parameter: the id a submission
 * takes is `Date.now()` and its `createdAt` is the ISO text of the moment.
 */
module TypeRegistry {
  import opened Wrappers
  import opened Lists

  /** The form values; `description` and `color` may be left undefined (`None`). */
  datatype TypeFormValues = TypeFormValues(
    name: string,
    description: Option<string>,
    category: string,
    status: string,
    color: Option<string>
  )

  /** The values the form starts with and is reset to after a submission. */
  const Defaults: TypeFormValues := TypeFormValues("", Some(""), "", "active", Some("#3B82F6"))

  datatype TypeField = Name | Category | Status

  const NameTooShort := "Nome deve ter pelo menos 2 caracteres"
  const NameTooLong := "Nome deve ter no máximo 50 caracteres"
  const CategoryRequired := "Categoria é obrigatória"
  const StatusRequired := "Status é obrigatório"

  /** The schema's message for a field, `None` when the field passes. */
  function Message(v: TypeFormValues, f: TypeField): (r: Option<string>)
    ensures f == Name ==> (r.None? <==> 2 <= |v.name| <= 50)
    ensures f == Category ==> (r.None? <==> v.category != "")
    ensures f == Status ==> (r.None? <==> v.status != "")
  {
    match f
    case Name =>
      if |v.name| < 2 then Some(NameTooShort)
      else if |v.name| > 50 then Some(NameTooLong)
      else None
    case Category => if |v.category| < 1 then Some(CategoryRequired) else None
    case Status => if |v.status| < 1 then Some(StatusRequired) else None
  }

  /** The fields the schema rejects. */
  function Errors(v: TypeFormValues): (r: set<TypeField>)
    ensures forall f :: f in r <==> Message(v, f).Some?
  {
    set f: TypeField | Message(v, f).Some?
  }

  /** The schema's constraints, stated without the messages. */
  predicate Valid(v: TypeFormValues) {
    2 <= |v.name| <= 50 && v.category != "" && v.status != ""
  }

  lemma ValidIffNoErrors(v: TypeFormValues)
    ensures Valid(v) <==> Errors(v) == {}
  {
    if !Valid(v) {
      if !(2 <= |v.name| <= 50) { assert Name in Errors(v); }
      else if v.category == "" { assert Category in Errors(v); }
      else { assert Status in Errors(v); }
    }
  }

  /** The defaults are refused: the name is empty and no category is chosen. */
  lemma DefaultsRefused()
    ensures Errors(Defaults) == {Name, Category}
    ensures Message(Defaults, Name) == Some(NameTooShort)
  {
    assert Status !in Errors(Defaults);
    assert Name in Errors(Defaults) && Category in Errors(Defaults);
    forall f | f in Errors(Defaults) ensures f in {Name, Category} {
    }
  }

  /** A registered type: the form values plus the id and the creation time. */
  datatype TypeItem = TypeItem(
    id: int,
    name: string,
    description: Option<string>,
    category: string,
    status: string,
    color: Option<string>,
    createdAt: string
  )

  datatype RegistryState = RegistryState(
    values: TypeFormValues,
    types: seq<TypeItem>,
    isSubmitting: bool,
    submitError: Option<string>,
    submitSuccess: bool
  )

  const Initial: RegistryState := RegistryState(Defaults, [], false, None, false)

  /** `{ id: Date.now(), ...data, createdAt: new Date().toISOString() }`. */
  function NewType(v: TypeFormValues, now: int, createdAt: string): (t: TypeItem)
    ensures t.id == now && t.createdAt == createdAt
    ensures TypeFormValues(t.name, t.description, t.category, t.status, t.color) == v
  {
    TypeItem(now, v.name, v.description, v.category, v.status, v.color, createdAt)
  }

  /**
   * `form.handleSubmit(onSubmit)`: refused values leave the state as it was;
   * accepted values append one type, report success and reset the form.
   * Nothing in the `try` block can throw, so the error stays cleared.
   */
  function Submit(s: RegistryState, now: int, createdAt: string): (r: RegistryState)
    ensures !Valid(s.values) ==> r == s
    ensures Valid(s.values) ==> |r.types| == |s.types| + 1 && r.types[..|s.types|] == s.types
    ensures Valid(s.values) ==> r.types[|s.types|] == NewType(s.values, now, createdAt)
    ensures Valid(s.values) ==> r.values == Defaults && r.submitSuccess && r.submitError.None?
    ensures !r.isSubmitting <==> !s.isSubmitting || Valid(s.values)
  {
    if !Valid(s.values) then s
    else
      RegistryState(Defaults, s.types + [NewType(s.values, now, createdAt)], false, None, true)
  }

  /** `deleteType`: every type with that id goes, every other stays, in order. */
  function Delete(s: RegistryState, id: int): (r: RegistryState)
    ensures forall i :: 0 <= i < |r.types| ==> r.types[i].id != id && r.types[i] in s.types
    ensures forall t :: t in s.types && t.id != id ==> t in r.types
    ensures SubsequenceOf(r.types, s.types)
    ensures forall i :: 0 <= i < |s.types| ==>
      multiset(r.types)[s.types[i]] == if s.types[i].id != id then multiset(s.types)[s.types[i]] else 0
    ensures r.(types := s.types) == s
  {
    var keep := (t: TypeItem) => t.id != id;
    FilterMultiplicity(s.types, keep);
    s.(types := Filter(s.types, keep))
  }

  /** `resetSuccess`: only the success flag changes. */
  function ResetSuccess(s: RegistryState): (r: RegistryState)
    ensures !r.submitSuccess && r.(submitSuccess := s.submitSuccess) == s
  {
    s.(submitSuccess := false)
  }

  /** Deleting a type whose id is present shortens the list. */
  lemma DeletePresentShortens(s: RegistryState, t: TypeItem)
    requires t in s.types
    ensures |Delete(s, t.id).types| < |s.types|
  {
    var r := Delete(s, t.id);
    assert forall i :: 0 <= i < |r.types| ==> r.types[i] != t;
    SubsequenceMissingShorter(r.types, s.types, t);
  }

  /** Deleting the same id twice is the same as deleting it once. */
  lemma DeleteIdempotent(s: RegistryState, id: int)
    ensures Delete(Delete(s, id), id) == Delete(s, id)
  {
    FilterIdempotent(s.types, (t: TypeItem) => t.id != id);
  }

  /**
   * Deleting the type just registered, when its id was fresh, restores the
   * list as it was before the submission.
   */
  lemma DeleteUndoesSubmit(s: RegistryState, now: int, createdAt: string)
    requires Valid(s.values)
    requires forall i :: 0 <= i < |s.types| ==> s.types[i].id != now
    ensures Delete(Submit(s, now, createdAt), now).types == s.types
  {
    var keep := (t: TypeItem) => t.id != now;
    var added := NewType(s.values, now, createdAt);
    FilterAppend(s.types, [added], keep);
    assert Filter(s.types, keep) == s.types;
    assert [added][1..] == [];
    assert Filter([added], keep) == [];
  }

  /**
   * Two submissions within the same millisecond share an id, and one
   * deletion then removes both of them.
   */
  lemma SameMillisecondDeleteRemovesBoth(s: RegistryState, second: TypeFormValues, now: int, createdAt: string)
    requires Valid(s.values) && Valid(second)
    ensures
      var once := Submit(s, now, createdAt);
      var twice := Submit(once.(values := second), now, createdAt);
      |twice.types| == |s.types| + 2 &&
      twice.types[|s.types|].id == twice.types[|s.types| + 1].id == now &&
      forall i :: 0 <= i < |Delete(twice, now).types| ==> Delete(twice, now).types[i].id != now
  {
  }
}
