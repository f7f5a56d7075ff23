/**
 * A stack of statically fixed capacity over an array (src/stack.rs). The
 * first `pointer` slots of `items` hold the stack from bottom to top; the
 * remaining slots are uninitialised in the Rust code and hold arbitrary
 * values here.
 */
module FixedStack {
  import opened Results

  /** The capacity the tests of src/stack.rs instantiate the stack with. */
  const DefaultStackSize: nat := 256

  class Stack<T(0)> {
    /** The backing array; its length is the capacity `N`. */
    const items: array<T>
    /** The number of initialised items, and the index of the next free slot. */
    var pointer: nat

    /** The stack pointer never exceeds the capacity. */
    ghost predicate Valid()
      reads this
    {
      pointer <= items.Length
    }

    /** The items on the stack, bottom first. */
    ghost function Contents(): seq<T>
      reads this, items
      requires Valid()
    {
      items[..pointer]
    }

    /** `Stack::default()`: an empty stack of capacity `n`. */
    constructor Default(n: nat)
      ensures Valid() && fresh(items)
      ensures items.Length == n && pointer == 0 && Contents() == []
    {
      items := new T[n];
      pointer := 0;
    }

    /** `reset`: empties the stack without touching the slots. */
    method Reset()
      requires Valid()
      modifies this
      ensures Valid() && pointer == 0 && Contents() == []
      ensures items[..] == old(items[..])
    {
      pointer := 0;
    }

    /** `push`: fails on a full stack, otherwise stores `value` at the old pointer and returns that index. */
    method Push(value: T) returns (r: Option<nat>)
      requires Valid()
      modifies this, items
      ensures Valid()
      ensures old(pointer) == items.Length ==> r == None && pointer == old(pointer) && items[..] == old(items[..])
      ensures old(pointer) < items.Length ==>
        && r == Some(old(pointer))
        && pointer == old(pointer) + 1
        && items[..] == old(items[..])[old(pointer) := value]
        && Contents() == old(Contents()) + [value]
    {
      if pointer == items.Length {
        return None;
      }
      items[pointer] := value;
      pointer := pointer + 1;
      r := Some(pointer - 1);
    }

    /** `pop`: fails on an empty stack, otherwise removes and returns the top item. */
    method Pop() returns (r: Option<T>)
      requires Valid()
      modifies this
      ensures Valid()
      ensures old(pointer) == 0 ==> r == None && pointer == 0
      ensures old(pointer) > 0 ==>
        && pointer == old(pointer) - 1
        && r == Some(old(Contents())[old(pointer) - 1])
        && Contents() == old(Contents())[..old(pointer) - 1]
    {
      if pointer == 0 {
        return None;
      }
      pointer := pointer - 1;
      r := Some(items[pointer]);
    }

    /** `top`: the most recently pushed item, if any. */
    function Top(): (r: Option<T>)
      reads this, items
      requires Valid()
      ensures r.None? <==> Contents() == []
      ensures r.Some? ==> r.value == Contents()[|Contents()| - 1]
    {
      if pointer == 0 then None else Some(items[pointer - 1])
    }

    /**
     * `top_mut` followed by a write through the returned reference: replaces
     * the top item with `value`, or reports that the stack is empty.
     */
    method TopMut(value: T) returns (found: bool)
      requires Valid()
      modifies items
      ensures found <==> pointer > 0
      ensures found ==> Contents() == old(Contents())[..pointer - 1] + [value]
      ensures !found ==> items[..] == old(items[..])
      ensures forall i :: pointer <= i < items.Length ==> items[i] == old(items[i])
    {
      if pointer == 0 {
        return false;
      }
      items[pointer - 1] := value;
      found := true;
      assert Contents() == old(Contents())[..pointer - 1] + [value];
    }

    /** `Index::index`: the item at `index`; `None` stands for the "Index is out-of-bound." panic. */
    function Index(index: nat): (r: Option<T>)
      reads this, items
      requires Valid()
      ensures r.Some? <==> index < |Contents()|
      ensures r.Some? ==> r.value == Contents()[index]
    {
      if index >= pointer then None else Some(items[index])
    }

    /**
     * `IndexMut::index_mut` followed by a write: replaces the item at `index`;
     * `false` stands for the "Index is out-of-bound." panic.
     */
    method IndexMut(index: nat, value: T) returns (ok: bool)
      requires Valid()
      modifies items
      ensures ok <==> index < pointer
      ensures ok ==> Contents() == old(Contents())[index := value]
      ensures !ok ==> items[..] == old(items[..])
      ensures forall i :: pointer <= i < items.Length ==> items[i] == old(items[i])
    {
      if index >= pointer {
        return false;
      }
      items[index] := value;
      ok := true;
      assert Contents() == old(Contents())[index := value];
    }
  }

  /** A double-ended iterator over the items currently on a stack, bottom first. */
  class StackIter<T(0)> {
    const stack: Stack<T>
    var pointerFront: nat
    var pointerBack: nat

    ghost predicate Valid()
      reads this, stack
    {
      stack.Valid() && pointerFront <= pointerBack <= stack.pointer
    }

    /** The items the iterator has yet to yield, in order. */
    ghost function Remaining(): seq<T>
      reads this, stack, stack.items
      requires Valid()
    {
      stack.items[pointerFront..pointerBack]
    }

    /** `StackIter::new`: an iterator over the whole of `stack`. */
    constructor New(stack: Stack<T>)
      requires stack.Valid()
      ensures this.stack == stack && Valid()
      ensures Remaining() == stack.Contents()
    {
      this.stack := stack;
      pointerFront := 0;
      pointerBack := stack.pointer;
    }

    /** `next`: yields the front item and advances the front pointer. */
    method Next() returns (r: Option<T>)
      requires Valid()
      modifies this
      ensures Valid()
      ensures old(Remaining()) == [] ==> r == None && Remaining() == []
      ensures old(Remaining()) != [] ==>
        r == Some(old(Remaining())[0]) && Remaining() == old(Remaining())[1..]
    {
      if pointerFront >= pointerBack {
        return None;
      }
      r := stack.Index(pointerFront);
      pointerFront := pointerFront + 1;
    }

    /** `next_back`: moves the back pointer down and yields the item there. */
    method NextBack() returns (r: Option<T>)
      requires Valid()
      modifies this
      ensures Valid()
      ensures old(Remaining()) == [] ==> r == None && Remaining() == []
      ensures old(Remaining()) != [] ==>
        && r == Some(old(Remaining())[|old(Remaining())| - 1])
        && Remaining() == old(Remaining())[..|old(Remaining())| - 1]
    {
      if pointerBack <= pointerFront {
        return None;
      }
      pointerBack := pointerBack - 1;
      r := stack.Index(pointerBack);
    }

    /** `ExactSizeIterator::len`: the number of items still to be yielded. */
    function Len(): (n: nat)
      reads this, stack, stack.items
      requires Valid()
      ensures n == |Remaining()|
    {
      pointerBack - pointerFront
    }
  }

  /**
   * The test `stack_operations_are_lifo`, for any count up to the capacity:
   * pushing 0, 1, ..., n - 1 and then popping n times yields n - 1, ..., 0.
   */
  method LifoOrder(n: nat) returns (popped: seq<nat>)
    requires n <= DefaultStackSize
    ensures |popped| == n
    ensures forall k :: 0 <= k < n ==> popped[k] == n - 1 - k
  {
    var stack := new Stack<nat>.Default(DefaultStackSize);
    var i := 0;
    while i < n
      invariant 0 <= i <= n
      invariant stack.Valid() && stack.items.Length == DefaultStackSize
      invariant |stack.Contents()| == i
      invariant forall k :: 0 <= k < i ==> stack.Contents()[k] == k
    {
      var index := stack.Push(i);
      i := i + 1;
    }
    popped := [];
    while i > 0
      invariant 0 <= i <= n
      invariant stack.Valid() && |stack.Contents()| == i
      invariant forall k :: 0 <= k < i ==> stack.Contents()[k] == k
      invariant |popped| == n - i
      invariant forall k :: 0 <= k < n - i ==> popped[k] == n - 1 - k
    {
      var top := stack.Pop();
      popped := popped + [top.value];
      i := i - 1;
    }
  }

  /** The test `stack_exceeded_error_is_returned`: once `N` items are pushed, another push fails. */
  method PushBeyondCapacity() returns (r: Option<nat>)
    ensures r == None
  {
    var stack := new Stack<nat>.Default(DefaultStackSize);
    var i := 0;
    while i < DefaultStackSize
      invariant 0 <= i <= DefaultStackSize
      invariant stack.Valid() && stack.items.Length == DefaultStackSize && stack.pointer == i
    {
      var index := stack.Push(i);
      i := i + 1;
    }
    r := stack.Push(DefaultStackSize);
  }
}
