/** One link of the singly linked list: an element and the next link, both updated
    in place. */
module Nodes {

  class Node<T> {
    var element: T
    var next: Node?<T>

    /** A new link holds `element` and points nowhere. */
    constructor (element: T)
      ensures this.element == element && next == null
    {
      this.element := element;
      this.next := null;
    }

    function GetElement(): T
      reads this
    {
      element
    }

    function GetNext(): Node?<T>
      reads this
    {
      next
    }

    method SetNext(next: Node?<T>)
      modifies this
      ensures this.next == next && element == old(element)
    {
      this.next := next;
    }

    method SetElement(element: T)
      modifies this
      ensures this.element == element && next == old(next)
    {
      this.element := element;
    }

    /** Stores `element` and hands back the one it replaces. */
    method ReplaceElement(element: T) returns (previous: T)
      modifies this
      ensures previous == old(this.element)
      ensures this.element == element && next == old(next)
    {
      previous := this.element;
      this.element := element;
    }
  }
}
