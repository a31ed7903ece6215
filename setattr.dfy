/** The `for key, value in update_data.items(): setattr(row, key, value)`
    loop of the update handlers, as a left fold of one assignment step. */
module Setattr {
  import opened Patches

  function ApplyEach<R, A>(step: (R, A) -> R, row: R, fs: seq<A>): R
    decreases |fs|
  {
    if fs == [] then row else ApplyEach(step, step(row, fs[0]), fs[1..])
  }

  /** Running the loop over `a + b` is running it over `a`, then over `b`. */
  lemma {:induction false} ApplyEachAppend<R, A>(step: (R, A) -> R, row: R, a: seq<A>, b: seq<A>)
    ensures ApplyEach(step, row, a + b) == ApplyEach(step, ApplyEach(step, row, a), b)
    decreases |a|
  {
    if a != [] {
      assert (a + b)[0] == a[0] && (a + b)[1..] == a[1..] + b;
      ApplyEachAppend(step, step(row, a[0]), a[1..], b);
    } else {
      assert a + b == b;
    }
  }

  /** One assignment more at the end of the loop. */
  lemma ApplyEachSnoc<R, A>(step: (R, A) -> R, row: R, fs: seq<A>, f: A)
    ensures ApplyEach(step, row, fs + [f]) == step(ApplyEach(step, row, fs), f)
  {
    ApplyEachAppend(step, row, fs, [f]);
    assert [f][1..] == [];
  }

  /** The loop itself: each assignment in turn, starting from `row`. */
  method SetEach<R, A>(step: (R, A) -> R, row: R, fs: seq<A>) returns (updated: R)
    ensures updated == ApplyEach(step, row, fs)
  {
    updated := row;
    var i := 0;
    while i < |fs|
      invariant 0 <= i <= |fs|
      invariant updated == ApplyEach(step, row, fs[..i])
    {
      ApplyEachSnoc(step, row, fs[..i], fs[i]);
      assert fs[..i + 1] == fs[..i] + [fs[i]];
      updated := step(updated, fs[i]);
      i := i + 1;
    }
    assert fs[..i] == fs;
  }

  /** The entry `model_dump(exclude_unset=True)` holds for one field: an
      assignment when the field was sent, nothing otherwise. */
  function Sent<T, A>(field: Patch<T>, assign: T -> A): (fs: seq<A>)
    requires !field.Null?
  {
    if field.Set? then [assign(field.value)] else []
  }

  /** Applying one field's entry assigns the value when it was sent and
      otherwise leaves the row alone. */
  lemma ApplySent<R, T, A>(step: (R, A) -> R, row: R, field: Patch<T>, assign: T -> A)
    requires !field.Null?
    ensures ApplyEach(step, row, Sent(field, assign)) == if field.Set? then step(row, assign(field.value)) else row
  {
    if field.Set? {
      assert Sent(field, assign)[1..] == [];
    }
  }
}
