/**
 * The toast manager: a queue of notifications. Adding one bumps a counter
 * and appends a toast whose id carries that counter and the clock; removing
 * filters by id. The clock (`Date.now()`) is an input of `AddToast`.
 */
module ToastManager {
  import opened Wrappers
  import opened Text

  /** One notification; `kind` is the `type` property (success, error, warning, info). */
  datatype Toast = Toast(id: string, message: string, kind: string, duration: int, description: string)

  /** `toast-<counter>-<now>`. */
  function ToastId(counter: nat, now: nat): string
  {
    "toast-" + NatToString(counter) + "-" + NatToString(now)
  }

  /** The counter segment of an id, 0 when the id has none. */
  function IdCounter(id: string): nat
  {
    var parts := Split(id, '-');
    if |parts| >= 2 && AllDigits(parts[1]) then ParseNat(parts[1]) else 0
  }

  /** An id splits at its dashes into the prefix, the counter and the clock. */
  lemma ToastIdParts(counter: nat, now: nat)
    ensures Split(ToastId(counter, now), '-') == ["toast", NatToString(counter), NatToString(now)]
  {
    var parts := ["toast", NatToString(counter), NatToString(now)];
    assert Join(parts, '-') == ToastId(counter, now) by {
      assert parts[1..][1..] == [NatToString(now)];
      assert Join(parts[1..], '-') == NatToString(counter) + ['-'] + NatToString(now);
      assert "toast-" == "toast" + ['-'];
    }
    DigitsHaveNoDash(NatToString(counter));
    DigitsHaveNoDash(NatToString(now));
    SplitJoin(parts, '-');
  }

  lemma DigitsHaveNoDash(s: string)
    requires AllDigits(s)
    ensures '-' !in s
  {
  }

  /** The counter can be read back from the id. */
  lemma IdCounterOfToastId(counter: nat, now: nat)
    ensures IdCounter(ToastId(counter, now)) == counter
  {
    ToastIdParts(counter, now);
    ParseNatToString(counter);
  }

  /** Ids made with different counters differ, whatever the clock says. */
  lemma ToastIdsDistinct(c1: nat, n1: nat, c2: nat, n2: nat)
    requires c1 != c2
    ensures ToastId(c1, n1) != ToastId(c2, n2)
  {
    IdCounterOfToastId(c1, n1);
    IdCounterOfToastId(c2, n2);
  }

  /** `toasts.filter(t => t.id !== id)`. */
  function Remove(toasts: seq<Toast>, id: string): seq<Toast>
  {
    if toasts == [] then []
    else (if toasts[0].id == id then [] else [toasts[0]]) + Remove(toasts[1..], id)
  }

  /** A toast survives exactly when it was there and has another id. */
  lemma {:induction false} RemoveMembers(toasts: seq<Toast>, id: string)
    ensures forall t :: t in Remove(toasts, id) <==> t in toasts && t.id != id
  {
    if toasts != [] {
      RemoveMembers(toasts[1..], id);
    }
  }

  /** Filtering a concatenation filters each part in place: the survivors keep their order. */
  lemma {:induction false} RemoveConcat(a: seq<Toast>, b: seq<Toast>, id: string)
    ensures Remove(a + b, id) == Remove(a, id) + Remove(b, id)
  {
    if a != [] {
      assert (a + b)[0] == a[0] && (a + b)[1..] == a[1..] + b;
      RemoveConcat(a[1..], b, id);
      var head := if a[0].id == id then [] else [a[0]];
      assert Remove(a + b, id) == head + (Remove(a[1..], id) + Remove(b, id));
      assert Remove(a, id) == head + Remove(a[1..], id);
    } else {
      assert a + b == b;
    }
  }

  /** An id no toast has leaves the queue as it is. */
  lemma {:induction false} RemoveUnknown(toasts: seq<Toast>, id: string)
    requires forall i :: 0 <= i < |toasts| ==> toasts[i].id != id
    ensures Remove(toasts, id) == toasts
  {
    if toasts != [] {
      RemoveUnknown(toasts[1..], id);
    }
  }

  /** The counters of the queued ids increase from the front to the back. */
  ghost predicate Increasing(toasts: seq<Toast>)
  {
    forall i, j :: 0 <= i < j < |toasts| ==> IdCounter(toasts[i].id) < IdCounter(toasts[j].id)
  }

  lemma {:induction false} RemoveKeepsIncreasing(toasts: seq<Toast>, id: string)
    requires Increasing(toasts)
    ensures Increasing(Remove(toasts, id))
  {
    if toasts != [] {
      var rest := Remove(toasts[1..], id);
      RemoveKeepsIncreasing(toasts[1..], id);
      RemoveMembers(toasts[1..], id);
      forall t | t in rest ensures IdCounter(toasts[0].id) < IdCounter(t.id) {
        var k :| 0 <= k < |toasts[1..]| && toasts[1..][k] == t;
        assert toasts[k + 1] == t;
      }
    }
  }

  /** Removing an id from a queue with increasing counters drops exactly the toast with that id. */
  lemma {:induction false} RemoveDropsOne(a: seq<Toast>, t: Toast, b: seq<Toast>)
    requires Increasing(a + [t] + b)
    ensures Remove(a + [t] + b, t.id) == a + b
  {
    var s := a + [t] + b;
    forall i | 0 <= i < |a| ensures a[i].id != t.id {
      assert s[i] == a[i] && s[|a|] == t;
    }
    forall i | 0 <= i < |b| ensures b[i].id != t.id {
      assert s[|a| + 1 + i] == b[i] && s[|a|] == t;
    }
    RemoveConcat(a + [t], b, t.id);
    RemoveConcat(a, [t], t.id);
    RemoveUnknown(a, t.id);
    RemoveUnknown(b, t.id);
  }

  /** The toast components the manager renders. */
  class ToastManagerElement {
    var toasts: seq<Toast>
    var toastCounter: nat

    /** Every queued id was issued by this manager, in queue order. */
    ghost predicate Valid()
      reads this
    {
      Increasing(toasts)
      && forall i :: 0 <= i < |toasts| ==> 1 <= IdCounter(toasts[i].id) <= toastCounter
    }

    constructor()
      ensures Valid() && toasts == [] && toastCounter == 0
    {
      toasts := [];
      toastCounter := 0;
    }

    /** `addToast(message, type = 'info', duration = 4000, description = '')`; `None` is an omitted argument. */
    method AddToast(message: string, kind: Option<string>, duration: Option<int>, description: Option<string>, now: nat)
      returns (id: string)
      requires Valid()
      modifies this
      ensures Valid()
      ensures toastCounter == old(toastCounter) + 1
      ensures id == ToastId(toastCounter, now)
      ensures toasts == old(toasts) + [Toast(id, message, kind.GetOr("info"), duration.GetOr(4000), description.GetOr(""))]
      ensures forall i :: 0 <= i < |old(toasts)| ==> toasts[i].id != id
    {
      toastCounter := toastCounter + 1;
      id := ToastId(toastCounter, now);
      IdCounterOfToastId(toastCounter, now);
      var toast := Toast(id, message, kind.GetOr("info"), duration.GetOr(4000), description.GetOr(""));
      toasts := toasts + [toast];
    }

    /** `removeToast(id)`. */
    method RemoveToast(id: string)
      requires Valid()
      modifies this`toasts
      ensures Valid()
      ensures toasts == Remove(old(toasts), id)
    {
      RemoveKeepsIncreasing(toasts, id);
      RemoveMembers(toasts, id);
      toasts := Remove(toasts, id);
    }

    /** `_handleToastClose(event)`, given `event.detail.id`. */
    method HandleToastClose(detailId: string)
      requires Valid()
      modifies this`toasts
      ensures Valid()
      ensures toasts == Remove(old(toasts), detailId)
    {
      RemoveToast(detailId);
    }

    /** `success(message, duration = 4000, description = '')`. */
    method Success(message: string, duration: Option<int>, description: Option<string>, now: nat) returns (id: string)
      requires Valid()
      modifies this
      ensures Valid() && toastCounter == old(toastCounter) + 1 && id == ToastId(toastCounter, now)
      ensures toasts == old(toasts) + [Toast(id, message, "success", duration.GetOr(4000), description.GetOr(""))]
    {
      id := AddToast(message, Some("success"), Some(duration.GetOr(4000)), description, now);
    }

    /** `error(message, duration = 6000, description = '')`. */
    method Error(message: string, duration: Option<int>, description: Option<string>, now: nat) returns (id: string)
      requires Valid()
      modifies this
      ensures Valid() && toastCounter == old(toastCounter) + 1 && id == ToastId(toastCounter, now)
      ensures toasts == old(toasts) + [Toast(id, message, "error", duration.GetOr(6000), description.GetOr(""))]
    {
      id := AddToast(message, Some("error"), Some(duration.GetOr(6000)), description, now);
    }

    /** `warning(message, duration = 5000, description = '')`. */
    method Warning(message: string, duration: Option<int>, description: Option<string>, now: nat) returns (id: string)
      requires Valid()
      modifies this
      ensures Valid() && toastCounter == old(toastCounter) + 1 && id == ToastId(toastCounter, now)
      ensures toasts == old(toasts) + [Toast(id, message, "warning", duration.GetOr(5000), description.GetOr(""))]
    {
      id := AddToast(message, Some("warning"), Some(duration.GetOr(5000)), description, now);
    }

    /** `info(message, duration = 4000, description = '')`. */
    method Info(message: string, duration: Option<int>, description: Option<string>, now: nat) returns (id: string)
      requires Valid()
      modifies this
      ensures Valid() && toastCounter == old(toastCounter) + 1 && id == ToastId(toastCounter, now)
      ensures toasts == old(toasts) + [Toast(id, message, "info", duration.GetOr(4000), description.GetOr(""))]
    {
      id := AddToast(message, Some("info"), Some(duration.GetOr(4000)), description, now);
    }
  }

  /** Closing the first of two fresh toasts leaves only the second: the other toast is never caught by the filter. */
  method CloseFirstOfTwo(m: ToastManagerElement, now1: nat, now2: nat) returns (id1: string, id2: string)
    requires m.Valid() && m.toasts == []
    modifies m
    ensures m.Valid() && id1 != id2
    ensures |m.toasts| == 1 && m.toasts[0].id == id2 && m.toasts[0].message == "Toast 2"
  {
    id1 := m.AddToast("Toast 1", None, None, None, now1);
    id2 := m.AddToast("Toast 2", None, None, None, now2);
    RemoveDropsOne([], m.toasts[0], [m.toasts[1]]);
    assert [] + [m.toasts[0]] + [m.toasts[1]] == m.toasts;
    m.HandleToastClose(id1);
  }
}
