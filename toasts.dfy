/** The toast queue of ToastProvider (use-toast.tsx): `toasts` is replaced by
    `[...current, newToast]`, by a `filter`, or by `slice(1)`. */
module Toasts {
  import opened Common

  datatype Variant = Default | Destructive | Success | Warning

  /** What a caller passes to `toast(props)`; `action` is a rendered node and
      is not modelled. */
  datatype ToastProps = ToastProps(id: Option<string>, title: string, description: Option<string>,
                                   variant: Option<Variant>, duration: Option<int>)

  /** A stored toast always has an id. */
  datatype Toast = Toast(id: string, title: string, description: Option<string>,
                         variant: Option<Variant>, duration: Option<int>)

  /** `props.id || generated`: an absent or empty id is replaced. `generated`
      stands for the random base-36 string the source draws. */
  function StoredId(props: ToastProps, generated: string): (id: string)
    ensures props.id.Some? && props.id.value != "" ==> id == props.id.value
    ensures props.id.None? || props.id.value == "" ==> id == generated
  {
    if props.id.Some? && props.id.value != "" then props.id.value else generated
  }

  function MakeToast(props: ToastProps, generated: string): Toast
  {
    Toast(StoredId(props, generated), props.title, props.description, props.variant, props.duration)
  }

  /** The `toast` updater: the new toast goes to the end. */
  function AddToast(toasts: seq<Toast>, props: ToastProps, generated: string): (r: seq<Toast>)
    ensures |r| == |toasts| + 1
    ensures r[..|toasts|] == toasts
    ensures r[|toasts|].id == StoredId(props, generated)
    ensures r[|toasts|].title == props.title && r[|toasts|].description == props.description
    ensures r[|toasts|].variant == props.variant && r[|toasts|].duration == props.duration
  {
    toasts + [MakeToast(props, generated)]
  }

  /** The `dismiss(id?)` updater: a non-empty id removes every toast carrying
      it, anything else removes the oldest toast. */
  function Dismiss(toasts: seq<Toast>, id: Option<string>): (r: seq<Toast>)
    ensures |r| <= |toasts|
    ensures id.Some? && id.value != "" ==>
      && (forall k :: 0 <= k < |r| ==> r[k].id != id.value && r[k] in toasts)
      && (forall k :: 0 <= k < |toasts| && toasts[k].id != id.value ==> toasts[k] in r)
    ensures (id.None? || id.value == "") ==> r == if toasts == [] then [] else toasts[1..]
  {
    if id.Some? && id.value != "" then Filter(toasts, (t: Toast) => t.id != id.value)
    else if toasts == [] then [] else toasts[1..]
  }

  /** Dismissing by id keeps the survivors in their order: on a concatenation it
      acts piecewise, and it leaves a list without that id untouched. */
  lemma DismissByIdOrder(a: seq<Toast>, b: seq<Toast>, id: string)
    requires id != ""
    ensures Dismiss(a + b, Some(id)) == Dismiss(a, Some(id)) + Dismiss(b, Some(id))
    ensures (forall k :: 0 <= k < |a| ==> a[k].id != id) ==> Dismiss(a, Some(id)) == a
  {
    FilterAppend(a, b, (t: Toast) => t.id != id);
    if forall k :: 0 <= k < |a| ==> a[k].id != id {
      FilterAllPass(a, (t: Toast) => t.id != id);
    }
  }

  /** The auto-dismiss timer calls `dismiss(id)` with the id `toast` stored:
      when that id is non-empty and not already in use, the toast added last is
      exactly the one removed. */
  lemma AddThenDismissRoundTrip(toasts: seq<Toast>, props: ToastProps, generated: string)
    requires StoredId(props, generated) != ""
    requires forall k :: 0 <= k < |toasts| ==> toasts[k].id != StoredId(props, generated)
    ensures Dismiss(AddToast(toasts, props, generated), Some(StoredId(props, generated))) == toasts
  {
    var id := StoredId(props, generated);
    var t := MakeToast(props, generated);
    assert AddToast(toasts, props, generated) == toasts + [t];
    DismissByIdOrder(toasts, [t], id);
    FilterSingleton(t, (x: Toast) => x.id != id);
  }

  /** A run of `dismiss` calls, oldest first. */
  function DismissAll(toasts: seq<Toast>, ids: seq<Option<string>>): seq<Toast>
    decreases |ids|
  {
    if ids == [] then toasts else DismissAll(Dismiss(toasts, ids[0]), ids[1..])
  }

  /** Whatever dismissals follow one another, the list never grows. */
  lemma {:induction false} DismissNeverGrows(toasts: seq<Toast>, ids: seq<Option<string>>)
    ensures |DismissAll(toasts, ids)| <= |toasts|
    decreases |ids|
  {
    if ids != [] {
      DismissNeverGrows(Dismiss(toasts, ids[0]), ids[1..]);
    }
  }

  /** The close button of a toast as written: `dismiss()` with no id. */
  function CloseButtonAsWritten(toasts: seq<Toast>, clicked: nat): (r: seq<Toast>)
    requires clicked < |toasts|
    ensures r == toasts[1..]
  {
    Dismiss(toasts, None)
  }

  /** With two toasts on screen, closing the second one removes the first and
      leaves the clicked one showing. */
  lemma CloseButtonRemovesOldest(first: Toast, second: Toast)
    requires first != second
    ensures CloseButtonAsWritten([first, second], 1) == [second]
    ensures second in CloseButtonAsWritten([first, second], 1)
    ensures first !in CloseButtonAsWritten([first, second], 1)
  {
  }

  /** The close button as intended: `dismiss(toast.id)` for the toast clicked. */
  function CloseButton(toasts: seq<Toast>, clicked: nat): (r: seq<Toast>)
    requires clicked < |toasts|
    ensures toasts[clicked].id != "" ==>
      && toasts[clicked] !in r
      && (forall k :: 0 <= k < |toasts| && toasts[k].id != toasts[clicked].id ==> toasts[k] in r)
  {
    Dismiss(toasts, Some(toasts[clicked].id))
  }
}
