/** The toast list behind `useToast`: notifications appended by `addToast`
    and taken away by id with `removeToast`. */
module Toasts {
  import opened Seqs

  datatype ToastType = Success | Error | Warning | Info

  datatype Toast = Toast(id: string, message: string, kind: ToastType)

  /** The list with every toast of that id taken out, the rest in order. */
  function WithoutId(toasts: seq<Toast>, id: string): (r: seq<Toast>)
    ensures forall t :: t in r <==> t in toasts && t.id != id
    ensures Subseq(r, toasts)
  {
    Filter(toasts, (t: Toast) => t.id != id)
  }

  predicate HasId(toasts: seq<Toast>, id: string) {
    exists i | 0 <= i < |toasts| :: toasts[i].id == id
  }

  /** Removing an id that is not shown changes nothing. */
  lemma RemoveAbsentIsNoOp(toasts: seq<Toast>, id: string)
    requires !HasId(toasts, id)
    ensures WithoutId(toasts, id) == toasts
  {
    FilterKeepsAll(toasts, (t: Toast) => t.id != id);
  }

  /** Removing a fresh toast right after adding it gives back the list before. */
  lemma AddThenRemove(toasts: seq<Toast>, t: Toast)
    requires !HasId(toasts, t.id)
    ensures WithoutId(toasts + [t], t.id) == toasts
  {
    var p := (x: Toast) => x.id != t.id;
    FilterAppend(toasts, [t], p);
    FilterKeepsAll(toasts, p);
    assert Filter([t], p) == [];
    assert toasts + [] == toasts;
  }

  /** Removing twice is removing once. */
  lemma RemoveIdempotent(toasts: seq<Toast>, id: string)
    ensures WithoutId(WithoutId(toasts, id), id) == WithoutId(toasts, id)
  {
    FilterIdempotent(toasts, (t: Toast) => t.id != id);
  }

  /** The provider's state. */
  class ToastStore {
    var toasts: seq<Toast>

    constructor ()
      ensures toasts == []
    {
      toasts := [];
    }

    /** `addToast`: the new toast goes last, the others stay as they were.
        The random id is supplied by the caller. */
    method AddToast(id: string, message: string, kind: ToastType)
      modifies this
      ensures toasts == old(toasts) + [Toast(id, message, kind)]
      ensures toasts[..|old(toasts)|] == old(toasts)
    {
      toasts := toasts + [Toast(id, message, kind)];
    }

    /** `removeToast`. */
    method RemoveToast(id: string)
      modifies this
      ensures toasts == WithoutId(old(toasts), id)
      ensures !HasId(old(toasts), id) ==> toasts == old(toasts)
      ensures !HasId(toasts, id)
    {
      if !HasId(toasts, id) {
        RemoveAbsentIsNoOp(toasts, id);
      }
      toasts := WithoutId(toasts, id);
      assert forall i | 0 <= i < |toasts| :: toasts[i] in toasts;
    }
  }
}
