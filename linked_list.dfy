/** The hand-written singly linked list. Without a comparator `add(x)` appends;
    with one it inserts `x` in front of the first element `x` does not compare above,
    so a list built by `add` alone stays sorted and a new element goes in front of
    the elements it ties with. `add(index, x)` links the new node after
    `getNode(index - 1)`, and `getNode(-1)` is the head, so on a non-empty list
    `add(0, x)` puts `x` second. `clear()` only resets the size. */
module LinkedLists {
  import opened Wrappers
  import opened Nodes

  /** `IllegalArgumentException("Invalid index: " + index)`. */
  datatype Failure = IllegalArgument(index: int)

  // ---------------------------------------------------------------------------
  // The list operations on the sequence of elements

  /** Where the sorted `add` links `x`: in front of the first element that `x` does
      not compare above, or at the end. */
  function InsertionIndex<T>(cmp: (T, T) -> int, s: seq<T>, x: T): (k: nat)
    ensures k <= |s|
    ensures forall i :: 0 <= i < k ==> cmp(x, s[i]) > 0
    ensures k < |s| ==> cmp(x, s[k]) <= 0
  {
    if |s| == 0 || cmp(x, s[0]) <= 0 then 0 else 1 + InsertionIndex(cmp, s[1..], x)
  }

  /** `add(x)`: appended without a comparator, inserted at the insertion index with one. */
  function Added<T>(cmp: Option<(T, T) -> int>, s: seq<T>, x: T): seq<T> {
    match cmp
    case None => s + [x]
    case Some(c) =>
      var k := InsertionIndex(c, s, x);
      s[..k] + [x] + s[k..]
  }

  /** Where `add(index, x)` puts `x` in a non-empty list: after the head for index 0,
      at `index` otherwise. */
  function InsertPosition(index: int): int {
    if index == 0 then 1 else index
  }

  /** `add(index, x)` for an index in bounds; on an empty list it is `add(x)`. */
  function InsertedAt<T>(cmp: Option<(T, T) -> int>, s: seq<T>, index: int, x: T): seq<T>
    requires 0 <= index <= |s|
  {
    if |s| == 0 then Added(cmp, s, x)
    else
      var p := InsertPosition(index);
      s[..p] + [x] + s[p..]
  }

  /** `remove(index)` for an index in bounds. */
  function RemovedAt<T>(s: seq<T>, index: int): seq<T>
    requires 0 <= index < |s|
  {
    s[..index] + s[index + 1..]
  }

  /** `add` applied to each of `xs` in turn, starting from `s`. */
  function AddedAll<T>(cmp: Option<(T, T) -> int>, s: seq<T>, xs: seq<T>): seq<T> {
    if |xs| == 0 then s else Added(cmp, AddedAll(cmp, s, xs[..|xs| - 1]), xs[|xs| - 1])
  }

  /** Neighbours are in comparator order. */
  predicate Sorted<T>(cmp: (T, T) -> int, s: seq<T>) {
    forall i :: 0 <= i < |s| - 1 ==> cmp(s[i], s[i + 1]) <= 0
  }

  /** Every pair, not only neighbours, is in comparator order. */
  predicate SortedPairwise<T>(cmp: (T, T) -> int, s: seq<T>) {
    forall i, j :: 0 <= i < j < |s| ==> cmp(s[i], s[j]) <= 0
  }

  /** The sign rule of `Comparator.compare` on the elements of `s`: `a` is above `b`
      exactly when `b` is below `a`. */
  ghost predicate AntisymmetricOn<T>(cmp: (T, T) -> int, s: seq<T>) {
    forall a, b :: a in s && b in s ==> (cmp(a, b) > 0 <==> cmp(b, a) < 0)
  }

  /** "Not above" is transitive on the elements of `s`. */
  ghost predicate TransitiveOn<T>(cmp: (T, T) -> int, s: seq<T>) {
    forall a, b, c :: a in s && b in s && c in s && cmp(a, b) <= 0 && cmp(b, c) <= 0 ==> cmp(a, c) <= 0
  }

  /** No element occurs twice. */
  predicate Distinct<U(==)>(s: seq<U>) {
    forall i, j :: 0 <= i < j < |s| ==> s[i] != s[j]
  }

  /** Putting in an element that was not there keeps the elements distinct. */
  lemma InsertDistinct<U>(s: seq<U>, k: nat, x: U)
    requires k <= |s| && Distinct(s) && x !in s
    ensures Distinct(s[..k] + [x] + s[k..])
  {
    var r := s[..k] + [x] + s[k..];
    forall i, j | 0 <= i < j < |r| ensures r[i] != r[j] {
      var i' := if i < k then i else i - 1;
      var j' := if j < k then j else j - 1;
      if i != k && j != k {
        assert r[i] == s[i'] && r[j] == s[j'];
      } else if i != k {
        assert r[i] == s[i'];
      } else {
        assert r[j] == s[j'];
      }
    }
  }

  /** Taking an element out keeps the rest distinct. */
  lemma RemoveDistinct<U>(s: seq<U>, k: nat)
    requires k < |s| && Distinct(s)
    ensures Distinct(s[..k] + s[k + 1..])
  {
    var r := s[..k] + s[k + 1..];
    forall i, j | 0 <= i < j < |r| ensures r[i] != r[j] {
      var i' := if i < k then i else i + 1;
      var j' := if j < k then j else j + 1;
      assert r[i] == s[i'] && r[j] == s[j'];
    }
  }

  // ---------------------------------------------------------------------------
  // Properties of the sequence operations

  /** The insertion index is the only index with its two defining properties. */
  lemma {:induction false} InsertionIndexUnique<T>(cmp: (T, T) -> int, s: seq<T>, x: T, k: nat)
    requires k <= |s|
    requires forall i :: 0 <= i < k ==> cmp(x, s[i]) > 0
    requires k < |s| ==> cmp(x, s[k]) <= 0
    ensures InsertionIndex(cmp, s, x) == k
  {
    if k > 0 {
      assert cmp(x, s[0]) > 0;
      forall i | 0 <= i < k - 1 ensures cmp(x, s[1..][i]) > 0 {
        assert s[1..][i] == s[i + 1];
      }
      InsertionIndexUnique(cmp, s[1..], x, k - 1);
    }
  }

  /** `add` keeps every element and adds `x` once. */
  lemma AddedPermutation<T>(cmp: Option<(T, T) -> int>, s: seq<T>, x: T)
    ensures |Added(cmp, s, x)| == |s| + 1
    ensures multiset(Added(cmp, s, x)) == multiset(s) + multiset{x}
  {
    if cmp.Some? {
      var k := InsertionIndex(cmp.value, s, x);
      assert s == s[..k] + s[k..];
      calc {
        multiset(Added(cmp, s, x));
        multiset(s[..k] + [x] + s[k..]);
        multiset(s[..k]) + multiset{x} + multiset(s[k..]);
        { assert multiset(s) == multiset(s[..k]) + multiset(s[k..]); }
        multiset(s) + multiset{x};
      }
    }
  }

  /** The sorted `add` keeps a sorted list sorted, for any comparator that obeys the
      sign rule. */
  lemma AddedSorted<T>(cmp: (T, T) -> int, s: seq<T>, x: T)
    requires AntisymmetricOn(cmp, s + [x]) && Sorted(cmp, s)
    ensures Sorted(cmp, Added(Some(cmp), s, x))
  {
    var k := InsertionIndex(cmp, s, x);
    var r := Added(Some(cmp), s, x);
    assert |r| == |s| + 1;
    forall i | 0 <= i < |r| - 1 ensures cmp(r[i], r[i + 1]) <= 0 {
      if i + 1 < k {
        assert r[i] == s[i] && r[i + 1] == s[i + 1];
      } else if i + 1 == k {
        assert r[i] == s[i] && r[i + 1] == x;
        assert cmp(x, s[i]) > 0;
        assert s[i] in s + [x] && x in s + [x];
      } else if i == k {
        assert r[i] == x && r[i + 1] == s[k];
      } else {
        assert r[i] == s[i - 1] && r[i + 1] == s[i];
      }
    }
  }

  /** Ties go in front: no element that ties with `x` ends up before it. */
  lemma AddedInFrontOfTies<T>(cmp: (T, T) -> int, s: seq<T>, x: T)
    ensures var k := InsertionIndex(cmp, s, x);
            var r := Added(Some(cmp), s, x);
            |r| == |s| + 1 && r[k] == x &&
            forall i :: 0 <= i < k ==> r[i] == s[i] && cmp(x, r[i]) != 0
  {
  }

  /** Building a list by `add` from an empty sorted list gives a sorted permutation of
      the added elements. */
  lemma {:induction false} AddedAllSorted<T>(cmp: (T, T) -> int, xs: seq<T>)
    requires AntisymmetricOn(cmp, xs)
    ensures Sorted(cmp, AddedAll(Some(cmp), [], xs))
    ensures multiset(AddedAll(Some(cmp), [], xs)) == multiset(xs)
    decreases |xs|
  {
    if |xs| > 0 {
      var init, last := xs[..|xs| - 1], xs[|xs| - 1];
      assert xs == init + [last];
      assert AntisymmetricOn(cmp, init) by {
        forall a | a in init ensures a in xs { }
      }
      AddedAllSorted(cmp, init);
      var built := AddedAll(Some(cmp), [], init);
      assert AntisymmetricOn(cmp, built + [last]) by {
        forall a | a in built + [last] ensures a in xs {
          if a in built {
            assert a in multiset(built);
          }
        }
      }
      AddedSorted(cmp, built, last);
      AddedPermutation(Some(cmp), built, last);
    }
  }

  /** Without a comparator, adding one by one appends. */
  lemma {:induction false} AddedAllAppends<T>(s: seq<T>, xs: seq<T>)
    ensures AddedAll(None, s, xs) == s + xs
    decreases |xs|
  {
    if |xs| > 0 {
      AddedAllAppends(s, xs[..|xs| - 1]);
      assert xs == xs[..|xs| - 1] + [xs[|xs| - 1]];
    }
  }

  /** For a transitive comparator, sorted neighbours make a sorted list. */
  lemma {:induction false} SortedIsPairwise<T>(cmp: (T, T) -> int, s: seq<T>)
    requires TransitiveOn(cmp, s) && Sorted(cmp, s)
    ensures SortedPairwise(cmp, s)
    decreases |s|
  {
    if |s| > 1 {
      var t := s[1..];
      SortedTail(cmp, s);
      SortedIsPairwise(cmp, t);
      forall i, j | 0 <= i < j < |s| ensures cmp(s[i], s[j]) <= 0 {
        if i > 0 {
          assert s[i] == t[i - 1] && s[j] == t[j - 1];
        } else if j > 1 {
          assert s[1] == t[0] && s[j] == t[j - 1];
          assert s[0] in s && s[1] in s && s[j] in s;
        }
      }
    }
  }

  /** Dropping the first element keeps transitivity and order. */
  lemma SortedTail<T>(cmp: (T, T) -> int, s: seq<T>)
    requires TransitiveOn(cmp, s) && Sorted(cmp, s) && |s| > 0
    ensures TransitiveOn(cmp, s[1..]) && Sorted(cmp, s[1..])
  {
    var t := s[1..];
    forall a | a in t ensures a in s { }
    forall i | 0 <= i < |t| - 1 ensures cmp(t[i], t[i + 1]) <= 0 {
      assert t[i] == s[i + 1] && t[i + 1] == s[i + 2];
    }
  }

  /** Elements that tie end up in the reverse of the order they were added. */
  lemma TiesReversed<T>(cmp: (T, T) -> int, x: T, y: T)
    requires cmp(y, x) == 0
    ensures AddedAll(Some(cmp), [], [x, y]) == [y, x]
  {
    assert [x, y][..1] == [x];
    assert [x][..0] == [];
    assert AddedAll(Some(cmp), [], [x]) == [x];
    assert InsertionIndex(cmp, [x], y) == 0;
  }

  /** `add(0, x)` on a non-empty list puts `x` second, behind the old head. */
  lemma InsertAtZeroIsSecond<T>(cmp: Option<(T, T) -> int>, s: seq<T>, x: T)
    requires |s| > 0
    ensures InsertedAt(cmp, s, 0, x) == [s[0], x] + s[1..]
  {
  }

  /** `add(index, x)` puts `x` at its insertion position, keeps every element, and
      `remove` at that position undoes it. */
  lemma InsertedAtThenRemoved<T>(cmp: Option<(T, T) -> int>, s: seq<T>, index: int, x: T)
    requires 0 < |s| && 0 <= index <= |s|
    ensures var p := InsertPosition(index);
            var r := InsertedAt(cmp, s, index, x);
            0 < p <= |s| && |r| == |s| + 1 && r[p] == x && RemovedAt(r, p) == s
  {
    var p := InsertPosition(index);
    var r := InsertedAt(cmp, s, index, x);
    assert r[..p] == s[..p] && r[p + 1..] == s[p..];
    assert s == s[..p] + s[p..];
  }

  // ---------------------------------------------------------------------------
  // The list itself

  class LinkedList<T> {
    var head: Node?<T>
    var size: int
    const comparator: Option<(T, T) -> int>

    /** The elements in list order, the nodes that hold them, and every object the
        list may update. */
    ghost var Contents: seq<T>
    ghost var Spine: seq<Node<T>>
    ghost var Repr: set<object>

    /** `size` nodes hang off `head`, each linked to the next and the last to nothing.
        After `clear()` the head still points at the old nodes; nothing reads them. */
    ghost predicate Valid()
      reads this, Repr
    {
      this in Repr &&
      size == |Spine| && |Contents| == |Spine| &&
      (forall i :: 0 <= i < |Spine| ==> Spine[i] in Repr) &&
      (|Spine| > 0 ==> head == Spine[0]) &&
      (forall i :: 0 <= i < |Spine| ==> Spine[i].element == Contents[i]) &&
      (forall i :: 0 <= i < |Spine| - 1 ==> Spine[i].next == Spine[i + 1]) &&
      (|Spine| > 0 ==> Spine[|Spine| - 1].next == null) &&
      Distinct(Spine)
    }

    /** `new LinkedList()`: no comparator, so `add` appends. */
    constructor ()
      ensures Valid() && fresh(Repr)
      ensures Contents == [] && comparator.None?
    {
      head := null;
      size := 0;
      comparator := None;
      Contents, Spine, Repr := [], [], {this};
    }

    /** `new LinkedList(c)`: `add` keeps the list in the order of `c`. */
    constructor WithComparator(c: (T, T) -> int)
      ensures Valid() && fresh(Repr)
      ensures Contents == [] && comparator == Some(c)
    {
      comparator := Some(c);
      head := null;
      size := 0;
      Contents, Spine, Repr := [], [], {this};
    }

    method Add(x: T)
      requires Valid()
      modifies Repr
      ensures Valid() && fresh(Repr - old(Repr))
      ensures Contents == Added(comparator, old(Contents), x)
    {
      ghost var s := Contents;
      var newNode := new Node(x);
      if size == 0 {
        head := newNode;
        size := size + 1;
        Contents, Spine, Repr := [x], [newNode], Repr + {newNode};
        assert s == [] && Added(comparator, s, x) == [x];
        return;
      }
      match comparator
      case Some(c) =>
        InsertSorted(c, newNode);
      case None =>
        var last := LastNode();
        LinkAfter(last, |Spine|, newNode);
        assert s[..|s|] == s && s[|s|..] == [];
    }

    /** The sorted `add(x)` on a non-empty list: link the new node `n` in front of the
        first node whose element it does not compare above. */
    method InsertSorted(c: (T, T) -> int, n: Node<T>)
      requires Valid() && 0 < size
      requires n !in Repr
      modifies Repr, n
      ensures Valid() && Repr == old(Repr) + {n}
      ensures Contents == Added(Some(c), old(Contents), old(n.element))
    {
      ghost var s := Contents;
      var prev, curr, k := FindPlace(c, n.GetElement());
      if prev == null {
        LinkFirst(n);
        assert s[..k] == [] && s[k..] == s;
      } else {
        LinkAfter(prev, k, n);
      }
    }

    /** The walk of the unsorted `add(x)`: follows the links to the node with no next. */
    method LastNode() returns (curr: Node<T>)
      requires Valid() && 0 < size
      ensures curr == Spine[|Spine| - 1]
    {
      curr := head;
      ghost var k := 0;
      while curr.GetNext() != null
        invariant 0 <= k < |Spine| && curr == Spine[k]
        invariant k < |Spine| - 1 ==> curr.next == Spine[k + 1]
        decreases |Spine| - k
      {
        curr := curr.GetNext();
        k := k + 1;
      }
    }

    /** The walk of the sorted `add(x)`: past every node whose element `x` compares
        above, to the node before the insertion index (null when that is the head). */
    method FindPlace(c: (T, T) -> int, x: T) returns (prev: Node?<T>, curr: Node?<T>, ghost k: nat)
      requires Valid() && 0 < size
      ensures k == InsertionIndex(c, Contents, x)
      ensures prev == (if k == 0 then null else Spine[k - 1])
      ensures curr == (if k < |Spine| then Spine[k] else null)
    {
      curr := head;
      prev := null;
      k := 0;
      while curr != null && c(x, curr.GetElement()) > 0
        invariant 0 <= k <= |Spine|
        invariant curr == (if k < |Spine| then Spine[k] else null)
        invariant prev == (if k == 0 then null else Spine[k - 1])
        invariant forall i :: 0 <= i < k ==> c(x, Contents[i]) > 0
        decreases |Spine| - k
      {
        prev := curr;
        curr := curr.GetNext();
        k := k + 1;
      }
      InsertionIndexUnique(c, Contents, x, k);
    }

    /** `add(index, x)`: refused outside `0..size`; on an empty list it is `add(x)`. */
    method AddAt(index: int, x: T) returns (r: Result<(), Failure>)
      requires Valid()
      modifies Repr
      ensures Valid() && fresh(Repr - old(Repr))
      ensures r.Err? <==> index < 0 || index > old(|Contents|)
      ensures r.Err? ==> r.error == IllegalArgument(index) && Contents == old(Contents)
      ensures r.Ok? ==> Contents == InsertedAt(comparator, old(Contents), index, x)
    {
      if index < 0 || index > size {
        return Err(IllegalArgument(index));
      }
      if size == 0 {
        Add(x);
        return Ok(());
      }
      var newNode := new Node(x);
      var previous := GetNode(index - 1);
      LinkAfter(previous, InsertPosition(index), newNode);
      r := Ok(());
    }

    /** Makes the new node `n` the head, in front of the old head. */
    method LinkFirst(n: Node<T>)
      requires Valid() && 0 < size
      requires n !in Repr
      modifies this, n
      ensures Valid() && Repr == old(Repr) + {n}
      ensures Contents == [old(n.element)] + old(Contents)
    {
      n.SetNext(head);
      head := n;
      size := size + 1;
      Contents, Spine, Repr := [n.element] + Contents, [n] + Spine, Repr + {n};
    }

    /** Links the new node `n` between node `k - 1` and node `k` (or after the last
        node when `k` is the size): the step the sorted `add(x)` and `add(index, x)`
        share. */
    method LinkAfter(prev: Node<T>, ghost k: nat, n: Node<T>)
      requires Valid() && 0 < k <= |Spine| && prev == Spine[k - 1]
      requires n !in Repr
      modifies this, prev, n
      ensures Valid() && Repr == old(Repr) + {n}
      ensures Contents == old(Contents[..k]) + [old(n.element)] + old(Contents[k..])
    {
      var after := prev.GetNext();
      InsertDistinct(Spine, k, n);
      prev.SetNext(n);
      n.SetNext(after);
      size := size + 1;
      Contents := Contents[..k] + [n.element] + Contents[k..];
      Spine := Spine[..k] + [n] + Spine[k..];
      Repr := Repr + {n};
    }

    /** Moves the head to the second node: the step of `remove(0)`. */
    method UnlinkHead()
      requires Valid() && 0 < |Spine|
      modifies this
      ensures Valid() && Repr == old(Repr)
      ensures Contents == old(Contents[1..])
    {
      head := head.next;
      size := size - 1;
      Contents, Spine := Contents[1..], Spine[1..];
    }

    /** Unlinks node `k`, which has node `k - 1` before it: the step of `remove(index)`
        past the head. */
    method UnlinkAfter(prev: Node<T>, ghost k: nat)
      requires Valid() && 0 < k < |Spine| && prev == Spine[k - 1]
      modifies this, prev
      ensures Valid() && Repr == old(Repr)
      ensures Contents == old(Contents[..k] + Contents[k + 1..])
    {
      var curr := prev.GetNext();
      assert curr == Spine[k];
      RemoveDistinct(Spine, k);
      prev.SetNext(curr.GetNext());
      size := size - 1;
      Contents := Contents[..k] + Contents[k + 1..];
      Spine := Spine[..k] + Spine[k + 1..];
    }

    /** `get(index)`. */
    method Get(index: int) returns (r: Result<T, Failure>)
      requires Valid()
      ensures r == if 0 <= index < |Contents| then Ok(Contents[index]) else Err(IllegalArgument(index))
    {
      var check := BoundsCheck(index);
      if check.Err? {
        return Err(check.error);
      }
      var node := GetNode(index);
      r := Ok(node.GetElement());
    }

    /** `remove(index)`: unlinks the node at `index` and returns its element. */
    method Remove(index: int) returns (r: Result<T, Failure>)
      requires Valid()
      modifies Repr
      ensures Valid() && Repr == old(Repr)
      ensures r == if 0 <= index < old(|Contents|) then Ok(old(Contents)[index]) else Err(IllegalArgument(index))
      ensures r.Ok? ==> Contents == RemovedAt(old(Contents), index)
      ensures r.Err? ==> Contents == old(Contents)
    {
      var check := BoundsCheck(index);
      if check.Err? {
        return Err(check.error);
      }
      if index == 0 {
        var element := head.GetElement();
        UnlinkHead();
        return Ok(element);
      }
      var previous := GetNode(index - 1);
      var curr := previous.GetNext();
      assert curr == Spine[index];
      var element := curr.GetElement();
      UnlinkAfter(previous, index);
      r := Ok(element);
    }

    /** `replace(index, x)`: stores `x` at `index` and returns the element it replaces. */
    method Replace(index: int, x: T) returns (r: Result<T, Failure>)
      requires Valid()
      modifies Repr
      ensures Valid() && Repr == old(Repr)
      ensures r == if 0 <= index < old(|Contents|) then Ok(old(Contents)[index]) else Err(IllegalArgument(index))
      ensures Contents == if r.Ok? then old(Contents)[index := x] else old(Contents)
    {
      var check := BoundsCheck(index);
      if check.Err? {
        return Err(check.error);
      }
      var node := GetNode(index);
      var previous := node.ReplaceElement(x);
      Contents := Contents[index := x];
      r := Ok(previous);
    }

    /** `boundsCheck(index)`: an index is usable when it names an element. */
    method BoundsCheck(index: int) returns (r: Result<(), Failure>)
      requires Valid()
      ensures r.Ok? <==> 0 <= index < |Contents|
      ensures r.Err? ==> r.error == IllegalArgument(index)
    {
      if index < 0 || index >= size {
        return Err(IllegalArgument(index));
      }
      r := Ok(());
    }

    method Size() returns (n: int)
      requires Valid()
      ensures n == |Contents|
    {
      n := size;
    }

    /** `clear()`: only the size is reset; the old nodes stay linked from `head`. */
    method Clear()
      requires Valid()
      modifies this
      ensures Valid() && Repr == old(Repr)
      ensures Contents == [] && head == old(head)
    {
      size := 0;
      Contents, Spine := [], [];
    }

    method IsEmpty() returns (b: bool)
      requires Valid()
      ensures b <==> |Contents| == 0
    {
      b := size == 0;
    }

    /** `getNode(index)`: walks `index` links from the head, so every index up to 0 is
        the head and `size` is the null after the last node. A larger index, or any
        index on an empty list, dereferences null or a cleared node. */
    method GetNode(index: int) returns (node: Node?<T>)
      requires Valid() && 0 < size && index <= size
      ensures index < size ==> node == Spine[if index < 0 then 0 else index]
      ensures index == size ==> node == null
    {
      node := head;
      var i := 0;
      while i < index
        invariant (index <= 0 && i == 0) || 0 <= i <= index
        invariant node == if i < |Spine| then Spine[i] else null
      {
        node := node.GetNext();
        i := i + 1;
      }
    }
  }
}
