/**
 * What the form pages share: the error map their validation loops build over a list of
 * fields, the list of empty fields, and the banner a details page shows when its submit
 * handler finds errors.
 */
module Forms {
  import opened Wrappers
  import opened Text

  /** The map a loop over `fields` builds by recording each field whose check fails, with its error. */
  function ErrorsOf<F, E>(check: F -> Option<E>, fields: seq<F>): map<F, E> {
    if fields == [] then map[]
    else
      var f := fields[|fields| - 1];
      var m := ErrorsOf(check, fields[..|fields| - 1]);
      if check(f).Some? then m[f := check(f).value] else m
  }

  lemma {:induction false} ErrorsOfEntries<F, E>(check: F -> Option<E>, fields: seq<F>, f: F)
    ensures f in ErrorsOf(check, fields) <==> f in fields && check(f).Some?
    ensures f in ErrorsOf(check, fields) ==> ErrorsOf(check, fields)[f] == check(f).value
  {
    if fields != [] {
      var init := fields[..|fields| - 1];
      ErrorsOfEntries(check, init, f);
      assert fields == init + [fields[|fields| - 1]];
    }
  }

  /** One more iteration of the loop: the next field's error, if any, is added to the map. */
  lemma ErrorsOfStep<F, E>(check: F -> Option<E>, fields: seq<F>, i: int)
    requires 0 <= i < |fields|
    ensures ErrorsOf(check, fields[..i + 1]) ==
              if check(fields[i]).Some? then ErrorsOf(check, fields[..i])[fields[i] := check(fields[i]).value]
              else ErrorsOf(check, fields[..i])
  {
    assert fields[..i + 1][..i] == fields[..i];
  }

  /** Appending a field to the list adds its error, if any, to the map. */
  lemma ErrorsOfSnoc<F, E>(check: F -> Option<E>, fields: seq<F>, f: F)
    ensures ErrorsOf(check, fields + [f]) ==
              if check(f).Some? then ErrorsOf(check, fields)[f := check(f).value] else ErrorsOf(check, fields)
  {
    assert (fields + [f])[..|fields|] == fields;
  }

  /** The fields of `fields` that are empty, in the order of `fields`. */
  function EmptyFields<F>(isEmpty: F -> bool, fields: seq<F>): seq<F> {
    if fields == [] then []
    else
      var f := fields[|fields| - 1];
      EmptyFields(isEmpty, fields[..|fields| - 1]) + (if isEmpty(f) then [f] else [])
  }

  lemma {:induction false} EmptyFieldsMembers<F>(isEmpty: F -> bool, fields: seq<F>, f: F)
    ensures f in EmptyFields(isEmpty, fields) <==> f in fields && isEmpty(f)
  {
    if fields != [] {
      var init := fields[..|fields| - 1];
      EmptyFieldsMembers(isEmpty, init, f);
      assert fields == init + [fields[|fields| - 1]];
    }
  }

  /** One more iteration of the loop: the next field is appended when it is empty. */
  lemma EmptyFieldsStep<F>(isEmpty: F -> bool, fields: seq<F>, i: int)
    requires 0 <= i < |fields|
    ensures EmptyFields(isEmpty, fields[..i + 1]) ==
              EmptyFields(isEmpty, fields[..i]) + (if isEmpty(fields[i]) then [fields[i]] else [])
  {
    assert fields[..i + 1][..i] == fields[..i];
  }

  /** `missingFields.map(field => labels[field])`: each missing field's label, in order. */
  function Labels<F>(labelOf: F -> string, fields: seq<F>): (r: seq<string>)
    ensures |r| == |fields|
    ensures forall i :: 0 <= i < |fields| ==> r[i] == labelOf(fields[i])
  {
    if fields == [] then [] else Labels(labelOf, fields[..|fields| - 1]) + [labelOf(fields[|fields| - 1])]
  }

  const FILL_IN_PREFIX := "Please fill in the following required fields: "
  const CORRECT_ERRORS := "Please correct the errors before continuing"

  function SubmitMessage(missingLabels: seq<string>): (m: string)
    ensures missingLabels == [] <==> m == CORRECT_ERRORS
    ensures missingLabels != [] ==> m == FILL_IN_PREFIX + Join(missingLabels, ", ")
  {
    if missingLabels != [] then
      assert |FILL_IN_PREFIX + Join(missingLabels, ", ")| > |CORRECT_ERRORS|;
      FILL_IN_PREFIX + Join(missingLabels, ", ")
    else CORRECT_ERRORS
  }

  /** With a single missing field the banner names exactly that field's label. */
  lemma SingleMissingLabel(name: string)
    ensures SubmitMessage([name]) == FILL_IN_PREFIX + name
  {
  }
}
