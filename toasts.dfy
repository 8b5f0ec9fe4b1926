/**
 * The notification list behind the toast provider
 * (src/contexts/toast-context.tsx). The random id of a new toast and the
 * timer that removes it are outside the model: the id is a parameter and
 * expiry is an ordinary call of `RemoveToast`.
 */
module Toasts {
  import opened Text
  import opened Seqs

  datatype ToastKind = Success | Error | Warning | Info

  /** What a caller hands to `addToast`: everything but the id. */
  datatype ToastRequest = ToastRequest(
    kind: ToastKind,
    title: string,
    description: Option<string>,
    duration: Option<int>)

  datatype Toast = Toast(
    id: string,
    kind: ToastKind,
    title: string,
    description: Option<string>,
    duration: int)

  const DefaultDuration := 5000
  const ErrorDuration := 7000

  /** `toast.duration || 5000`: a missing or zero duration takes the default. */
  function StoredDuration(d: Option<int>): (r: int)
    ensures r != 0
    ensures d.Some? && d.value != 0 ==> r == d.value
    ensures d.None? || d.value == 0 ==> r == DefaultDuration
  {
    if d.Some? && d.value != 0 then d.value else DefaultDuration
  }

  function MakeToast(id: string, req: ToastRequest): (t: Toast)
    ensures t.id == id && t.kind == req.kind && t.title == req.title && t.description == req.description
    ensures t.duration == StoredDuration(req.duration)
  {
    Toast(id, req.kind, req.title, req.description, StoredDuration(req.duration))
  }

  /** A removal timer is started only for a positive duration. */
  predicate SchedulesRemoval(t: Toast)
  {
    t.duration > 0
  }

  /**
   * A stored toast expires unless its caller asked for a negative duration:
   * a missing or zero duration becomes the default and so expires too.
   */
  lemma ExpiresUnlessNegative(id: string, req: ToastRequest)
    ensures SchedulesRemoval(MakeToast(id, req)) <==> req.duration.None? || req.duration.value >= 0
  {
  }

  /** `prev.filter(toast => toast.id !== id)` */
  function WithoutId(ts: seq<Toast>, id: string): (r: seq<Toast>)
    ensures forall t | t in r :: t.id != id && t in ts
    ensures forall t | t in ts && t.id != id :: t in r
    ensures forall t | t in ts :: Count(r, t) == if t.id != id then Count(ts, t) else 0
    ensures IsSubsequence(r, ts)
  {
    var keep := (t: Toast) => t.id != id;
    FilterIsSubsequence(ts, keep);
    FilterCounts(ts, keep);
    Filter(ts, keep)
  }

  predicate HasId(ts: seq<Toast>, id: string)
  {
    exists i | 0 <= i < |ts| :: ts[i].id == id
  }

  /** Removing an id that is not there changes nothing. */
  lemma RemoveAbsentIsNoOp(ts: seq<Toast>, id: string)
    requires !HasId(ts, id)
    ensures WithoutId(ts, id) == ts
  {
    FilterKeepsAll(ts, (t: Toast) => t.id != id);
  }

  /** Removing twice is removing once. */
  lemma RemoveTwiceIsRemoveOnce(ts: seq<Toast>, id: string)
    ensures WithoutId(WithoutId(ts, id), id) == WithoutId(ts, id)
  {
    FilterIdempotent(ts, (t: Toast) => t.id != id);
  }

  /** Adding a toast with a fresh id and then removing that id gives back the list before. */
  lemma AddThenRemoveRestores(ts: seq<Toast>, id: string, req: ToastRequest)
    requires !HasId(ts, id)
    ensures WithoutId(ts + [MakeToast(id, req)], id) == ts
  {
    var keep := (t: Toast) => t.id != id;
    FilterConcat(ts, [MakeToast(id, req)], keep);
    RemoveAbsentIsNoOp(ts, id);
    assert Filter([MakeToast(id, req)], keep) == [];
  }

  class ToastStore {
    var toasts: seq<Toast>

    constructor()
      ensures toasts == []
    {
      toasts := [];
    }

    /** `addToast`; `id` stands for the random id the provider draws. */
    method AddToast(id: string, req: ToastRequest) returns (scheduled: bool)
      modifies this
      ensures toasts == old(toasts) + [MakeToast(id, req)]
      ensures scheduled <==> SchedulesRemoval(MakeToast(id, req))
    {
      var t := MakeToast(id, req);
      toasts := toasts + [t];
      scheduled := t.duration > 0;
    }

    method RemoveToast(id: string)
      modifies this
      ensures toasts == WithoutId(old(toasts), id)
    {
      toasts := WithoutId(toasts, id);
    }

    method ClearToasts()
      modifies this
      ensures toasts == []
    {
      toasts := [];
    }
  }

  // useToastHelpers

  function SuccessToast(title: string, description: Option<string>): (r: ToastRequest)
    ensures r.kind == Success && r.title == title && r.description == description
    ensures StoredDuration(r.duration) == DefaultDuration
  {
    ToastRequest(Success, title, description, None)
  }

  function ErrorToast(title: string, description: Option<string>): (r: ToastRequest)
    ensures r.kind == Error && r.title == title && r.description == description
    ensures StoredDuration(r.duration) == ErrorDuration
  {
    ToastRequest(Error, title, description, Some(ErrorDuration))
  }

  function WarningToast(title: string, description: Option<string>): (r: ToastRequest)
    ensures r.kind == Warning && r.title == title && r.description == description
    ensures StoredDuration(r.duration) == DefaultDuration
  {
    ToastRequest(Warning, title, description, None)
  }

  function InfoToast(title: string, description: Option<string>): (r: ToastRequest)
    ensures r.kind == Info && r.title == title && r.description == description
    ensures StoredDuration(r.duration) == DefaultDuration
  {
    ToastRequest(Info, title, description, None)
  }
}
