/** src/modules/shared: the JSON response envelope and the `lazy` memoiser. */
module Shared {
  import opened Wrappers

  /** `JsonResponse<T>`: status 'successful' or 'error', a message and
      optional data */
  datatype JsonResponse<T> = JsonResponse(successful: bool, message: string, data: Option<T>)

  function Ok<T>(message: string, data: T): JsonResponse<T> {
    JsonResponse(true, message, Some(data))
  }

  function Err<T>(message: string): JsonResponse<T> {
    JsonResponse(false, message, None)
  }

  /** The state a `lazy(fn)` wrapper closes over: the last value the factory
      returned, if it has run. Each wrapper owns one such value. */
  datatype LazyCell<T> = LazyCell(value: Option<T>)

  function NewLazy<T>(): LazyCell<T> {
    LazyCell(None)
  }

  /** The outcome of one call of the wrapper: the value returned, the new
      state and whether the factory ran */
  datatype LazyCall<T> = LazyCall(result: T, cell: LazyCell<T>, ran: bool)

  /** One call of the wrapper. `produced` is what the factory returns if it
      runs on this call; `truthy` is JavaScript truthiness for T. The factory
      runs unless the stored value is truthy. */
  function CallLazy<T>(cell: LazyCell<T>, produced: T, truthy: T -> bool): (r: LazyCall<T>)
    ensures r.ran <==> !(cell.value.Some? && truthy(cell.value.value))
    ensures r.ran ==> r.result == produced && r.cell == LazyCell(Some(produced))
    ensures !r.ran ==> r.result == cell.value.value && r.cell == cell
  {
    if cell.value.Some? && truthy(cell.value.value) then LazyCall(cell.value.value, cell, false)
    else LazyCall(produced, LazyCell(Some(produced)), true)
  }

  /** A run of successive calls: `produced[k]` is what the factory would
      return if it ran on call k. Yields the results and how often the
      factory ran. */
  function CallLazyMany<T>(cell: LazyCell<T>, produced: seq<T>, truthy: T -> bool): (r: (seq<T>, nat))
    ensures |r.0| == |produced|
    ensures r.1 <= |produced|
    decreases |produced|
  {
    if |produced| == 0 then ([], 0)
    else
      var c := CallLazy(cell, produced[0], truthy);
      var rest := CallLazyMany(c.cell, produced[1..], truthy);
      ([c.result] + rest.0, (if c.ran then 1 else 0) + rest.1)
  }

  /** Once a truthy value is stored, no later call runs the factory and every
      call returns that value */
  lemma {:induction false} LazyTruthyIsStable<T>(cell: LazyCell<T>, produced: seq<T>, truthy: T -> bool)
    requires cell.value.Some? && truthy(cell.value.value)
    ensures CallLazyMany(cell, produced, truthy).1 == 0
    ensures forall k :: 0 <= k < |produced| ==> CallLazyMany(cell, produced, truthy).0[k] == cell.value.value
  {
    if |produced| > 0 {
      LazyTruthyIsStable(cell, produced[1..], truthy);
    }
  }

  /** A fresh wrapper runs the factory on its first call and returns its
      result; if that result is truthy, the factory never runs again and
      every call returns the first result. */
  lemma LazyRunsOnce<T>(produced: seq<T>, truthy: T -> bool)
    requires |produced| > 0 && truthy(produced[0])
    ensures CallLazyMany(NewLazy(), produced, truthy).1 == 1
    ensures forall k :: 0 <= k < |produced| ==> CallLazyMany(NewLazy(), produced, truthy).0[k] == produced[0]
  {
    var c := CallLazy(NewLazy<T>(), produced[0], truthy);
    LazyTruthyIsStable(c.cell, produced[1..], truthy);
  }

  /** A falsy result is not kept: the next call runs the factory again and
      returns what it produces then */
  lemma LazyFalsyIsRetried<T>(first: T, second: T, truthy: T -> bool)
    requires !truthy(first)
    ensures CallLazyMany(NewLazy(), [first, second], truthy) == ([first, second], 2)
  {
    var c := CallLazy(NewLazy<T>(), first, truthy);
    assert [first, second][1..] == [second];
    var c2 := CallLazy(c.cell, second, truthy);
    assert c2.ran;
    assert CallLazyMany(c.cell, [second], truthy) == ([second], 1) by {
      assert [second][1..] == [];
      assert CallLazyMany(c2.cell, [], truthy) == ([], 0);
      assert [second] + [] == [second];
    }
    assert c.ran && c.result == first;
    assert [first] + [second] == [first, second];
  }
}
