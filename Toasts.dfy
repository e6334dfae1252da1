/** The toast queue of the web client (client/web/src/components/ToastProvider.tsx).
    Timer expiry and the close button are explicit removal events; the clock reading
    `Date.now()` is a parameter. Rendering into the DOM is not modelled. */
module Toasts {
  import opened Wrappers
  import opened Seqs
  import Text

  datatype ToastType = SuccessToast | ErrorToast | WarningToast | InfoToast

  datatype Toast = Toast(id: string, message: string, kind: ToastType, duration: int)

  const DefaultDuration := 3000

  /** The toast `showToast(message, type?, duration?)` creates at time `now`. */
  function NewToast(message: string, kind: Option<ToastType>, duration: Option<int>, now: nat): (t: Toast)
    ensures t.id == Text.NatToString(now) && t.message == message
    ensures t.kind == (if kind.Some? then kind.value else InfoToast)
    ensures t.duration == (if duration.Some? then duration.value else DefaultDuration)
  {
    Toast(Text.NatToString(now), message, kind.GetOr(InfoToast), duration.GetOr(DefaultDuration))
  }

  /** The queue after the timer or the close button of toast `id`: every toast with that
      id is gone, the rest keep their order. */
  function Removed(toasts: seq<Toast>, id: string): (r: seq<Toast>)
    ensures forall i :: 0 <= i < |r| ==> r[i].id != id && r[i] in toasts
    ensures forall i :: 0 <= i < |toasts| && toasts[i].id != id ==> toasts[i] in r
  {
    Filter((t: Toast) => t.id != id, toasts)
  }

  /** Removal keeps order: it works piece by piece over a concatenation, and a single
      toast is dropped exactly when it has that id. */
  lemma RemovedKeepsOrder(a: seq<Toast>, b: seq<Toast>, id: string)
    ensures Removed(a + b, id) == Removed(a, id) + Removed(b, id)
    ensures |b| == 1 ==> Removed(b, id) == if b[0].id == id then [] else b
  {
    FilterAppend((t: Toast) => t.id != id, a, b);
    if |b| == 1 {
      assert b[1..] == [];
    }
  }

  /** Removing a toast after appending it leaves the older toasts without that id. */
  lemma ShowThenRemove(toasts: seq<Toast>, t: Toast)
    ensures Removed(toasts + [t], t.id) == Removed(toasts, t.id)
  {
    FilterAppend((x: Toast) => x.id != t.id, toasts, [t]);
  }

  /** Two toasts shown in the same millisecond share their id, so the timer of either
      removes both. */
  lemma SameMillisecondRemovedTogether(toasts: seq<Toast>, m1: string, m2: string,
                                       k1: Option<ToastType>, k2: Option<ToastType>,
                                       d1: Option<int>, d2: Option<int>, now: nat)
    ensures var t1, t2 := NewToast(m1, k1, d1, now), NewToast(m2, k2, d2, now);
      t1.id == t2.id
      && t2 !in Removed(toasts + [t1, t2], t1.id)
      && t1 !in Removed(toasts + [t1, t2], t2.id)
  {
  }

  /** Toasts shown at different times have different ids. */
  lemma DistinctTimesDistinctIds(now1: nat, now2: nat)
    requires now1 != now2
    ensures Text.NatToString(now1) != Text.NatToString(now2)
  {
    if Text.NatToString(now1) == Text.NatToString(now2) {
      Text.NatToStringInjective(now1, now2);
    }
  }

  /** The value the provider puts in context. */
  datatype ToastContext = ToastContext

  /** `useToast()`: the context inside a provider, and the error outside one. */
  function UseToast(context: Option<ToastContext>): (r: Result<ToastContext, string>)
    ensures r.Err? <==> context.None?
    ensures r.Err? ==> r.error == "useToast must be used within a ToastProvider"
  {
    match context
    case None => Err("useToast must be used within a ToastProvider")
    case Some(c) => Ok(c)
  }

  class ToastProvider {
    var toasts: seq<Toast>

    constructor ()
      ensures toasts == []
    {
      toasts := [];
    }

    /** `showToast`: appends one toast; its id is the one the auto-hide timer removes. */
    method ShowToast(message: string, kind: Option<ToastType>, duration: Option<int>, now: nat) returns (id: string)
      modifies this
      ensures toasts == old(toasts) + [NewToast(message, kind, duration, now)]
      ensures id == Text.NatToString(now)
    {
      var t := NewToast(message, kind, duration, now);
      toasts := toasts + [t];
      id := t.id;
    }

    /** The timer's callback and the close button alike. */
    method RemoveToast(id: string)
      modifies this
      ensures toasts == Removed(old(toasts), id)
    {
      toasts := Removed(toasts, id);
    }
  }
}
