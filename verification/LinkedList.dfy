/** The doubly linked list of LinkedList.c, with its cached cursor.

    `items` is the plain sequence of elements the links spell out.  Every operation is specified on that sequence
    and on the cursor; the links, the ends and the count follow from `Valid`.  The byte total the source keeps in
    `size` is not part of this model. */
module LinkedList {
  import opened Wrappers

  class ListElement<T> {
    var prev: ListElement?<T>
    var next: ListElement?<T>
    var content: T

    constructor (content: T)
      ensures this.content == content
    {
      this.content := content;
      prev, next := null, null;
    }
  }

  // ---------- Sequences of elements and their links ----------

  ghost predicate Distinct<A>(s: seq<A>) {
    forall i, j :: 0 <= i < j < |s| ==> s[i] != s[j]
  }

  /** The element at index `k`, null beyond either end. */
  ghost function At<T>(s: seq<ListElement<T>>, k: int): ListElement?<T> {
    if 0 <= k < |s| then s[k] else null
  }

  ghost predicate Forward<T>(s: seq<ListElement<T>>)
    reads s`next
  {
    forall i {:trigger s[i].next} :: 0 <= i < |s| ==> s[i].next == At(s, i + 1)
  }

  ghost predicate Backward<T>(s: seq<ListElement<T>>)
    reads s`prev
  {
    forall i {:trigger s[i].prev} :: 0 <= i < |s| ==> s[i].prev == At(s, i - 1)
  }

  ghost predicate Holds<T>(s: seq<ListElement<T>>, contents: seq<T>): (held: bool)
    ensures held ==> |contents| == |s|
    reads s`content
  {
    |contents| == |s| && forall i :: 0 <= i < |s| ==> s[i].content == contents[i]
  }

  function Without<A>(s: seq<A>, k: nat): seq<A>
    requires k < |s|
  {
    s[..k] + s[k + 1..]
  }

  function Inserted<A>(s: seq<A>, k: nat, x: A): seq<A>
    requires k <= |s|
  {
    s[..k] + [x] + s[k..]
  }

  lemma ForwardWithout<T>(s: seq<ListElement<T>>, k: nat)
    requires k < |s| && Distinct(s)
    requires forall i {:trigger s[i].next} :: 0 <= i < |s| && i != k - 1 ==> s[i].next == At(s, i + 1)
    requires k > 0 ==> s[k - 1].next == At(s, k + 1)
    ensures Forward(Without(s, k))
  {
    var t := Without(s, k);
    forall i | 0 <= i < |t| ensures t[i].next == At(t, i + 1) {
      assert t[i] == s[if i < k then i else i + 1];
    }
  }

  lemma AtWithout<T>(s: seq<ListElement<T>>, k: nat, j: int)
    requires k < |s|
    ensures |Without(s, k)| == |s| - 1
    ensures At(Without(s, k), j) == At(s, if j < k then j else j + 1)
  {
  }

  lemma AtInserted<T>(s: seq<ListElement<T>>, k: nat, x: ListElement<T>, j: int)
    requires k <= |s|
    ensures |Inserted(s, k, x)| == |s| + 1
    ensures At(Inserted(s, k, x), j) == if j < k then At(s, j) else if j == k then x else At(s, j - 1)
  {
  }

  lemma StillDistinct<A>(s: seq<A>, k: nat, x: A)
    requires k <= |s| && Distinct(s)
    ensures k < |s| ==> Distinct(Without(s, k))
    ensures x !in s ==> Distinct(Inserted(s, k, x))
  {
  }

  lemma StillHolds<T>(s: seq<ListElement<T>>, contents: seq<T>, k: nat, x: ListElement<T>)
    requires k <= |s| && Holds(s, contents)
    ensures k < |s| ==> Holds(Without(s, k), Without(contents, k))
    ensures Holds(Inserted(s, k, x), Inserted(contents, k, x.content))
  {
  }

  lemma BackwardWithout<T>(s: seq<ListElement<T>>, k: nat)
    requires k < |s| && Distinct(s)
    requires forall i {:trigger s[i].prev} :: 0 <= i < |s| && i != k + 1 ==> s[i].prev == At(s, i - 1)
    requires k + 1 < |s| ==> s[k + 1].prev == At(s, k - 1)
    ensures Backward(Without(s, k))
  {
    var t := Without(s, k);
    forall i | 0 <= i < |t| ensures t[i].prev == At(t, i - 1) {
      assert t[i] == s[if i < k then i else i + 1];
    }
  }

  lemma ForwardInserted<T>(s: seq<ListElement<T>>, k: nat, x: ListElement<T>)
    requires k <= |s|
    requires forall i {:trigger s[i].next} :: 0 <= i < |s| && i != k - 1 ==> s[i].next == At(s, i + 1)
    requires k > 0 ==> s[k - 1].next == x
    requires x.next == At(s, k)
    ensures Forward(Inserted(s, k, x))
  {
    var t := Inserted(s, k, x);
    forall i | 0 <= i < |t| ensures t[i].next == At(t, i + 1) {
      if i != k {
        assert t[i] == s[if i < k then i else i - 1];
      }
    }
  }

  lemma BackwardInserted<T>(s: seq<ListElement<T>>, k: nat, x: ListElement<T>)
    requires k <= |s|
    requires forall i {:trigger s[i].prev} :: 0 <= i < |s| && i != k ==> s[i].prev == At(s, i - 1)
    requires k < |s| ==> s[k].prev == x
    requires x.prev == At(s, k - 1)
    ensures Backward(Inserted(s, k, x))
  {
    var t := Inserted(s, k, x);
    forall i | 0 <= i < |t| ensures t[i].prev == At(t, i - 1) {
      if i != k {
        assert t[i] == s[if i < k then i else i - 1];
      }
    }
  }

  // ---------- Searching ----------

  /** Where a search for `matches` ends: the cursor if it matches, else the first match. */
  ghost predicate Finds<T>(contents: seq<T>, cursor: int, matches: T -> bool, k: int) {
    && 0 <= k < |contents|
    && matches(contents[k])
    && if 0 <= cursor < |contents| && matches(contents[cursor]) then k == cursor
       else forall j :: 0 <= j < k ==> !matches(contents[j])
  }

  // ---------- The list ----------

  class List<T> {
    var first: ListElement?<T>
    var last: ListElement?<T>
    var current: ListElement?<T>
    var count: nat

    ghost var items: seq<ListElement<T>>
    /** The list as its users see it. */
    ghost var contents: seq<T>
    /** The cursor as an index; -1 when there is none. */
    ghost var cursor: int

    ghost predicate Valid()
      reads this, items
    {
      && Distinct(items) && Forward(items) && Backward(items)
      && Holds(items, contents)
      && first == At(items, 0) && last == At(items, |items| - 1) && count == |items|
      && -1 <= cursor < |items| && current == At(items, cursor)
    }

    constructor ()
      ensures Valid() && contents == [] && cursor == -1
    {
      first, last, current, count := null, null, null, 0;
      items, contents, cursor := [], [], -1;
    }

    /** The element may come from another list. */
    method AppendNoMalloc(content: T, newel: ListElement<T>)
      requires Valid() && newel !in items
      modifies this, items, newel
      ensures Valid() && items == old(items) + [newel] && cursor == old(cursor)
      ensures contents == old(contents) + [content]
    {
      newel.content := content;
      newel.next := null;
      newel.prev := last;
      if first == null {
        first := newel;
      } else {
        last.next := newel;
      }
      last := newel;
      count := count + 1;
      ghost var s, c := items, contents;
      items, contents := items + [newel], contents + [content];
      assert items == Inserted(s, |s|, newel) && contents == Inserted(c, |c|, content);
      ForwardInserted(s, |s|, newel);
      BackwardInserted(s, |s|, newel);
      StillDistinct(s, |s|, newel);
      StillHolds(s, c, |s|, newel);
    }

    method Append(content: T) returns (newel: ListElement<T>)
      requires Valid()
      modifies this, items
      ensures Valid() && fresh(newel) && items == old(items) + [newel] && cursor == old(cursor)
      ensures contents == old(contents) + [content]
    {
      newel := new ListElement(content);
      AppendNoMalloc(content, newel);
    }

    /** Insert before `index`, or at the end when there is none.  The cursor stays on its element. */
    method Insert(content: T, index: ListElement?<T>, ghost k: nat) returns (newel: ListElement<T>)
      requires Valid()
      requires k <= |items| && index == At(items, k)
      modifies this, items
      ensures Valid() && fresh(newel) && items == Inserted(old(items), k, newel)
      ensures current == old(current)
      ensures contents == Inserted(old(contents), k, content)
    {
      newel := new ListElement(content);
      if index == null {
        AppendNoMalloc(content, newel);
        assert items == Inserted(old(items), k, newel) && contents == Inserted(old(contents), k, content);
      } else {
        InsertBefore(newel, index, k);
      }
    }

    method InsertBefore(newel: ListElement<T>, index: ListElement<T>, ghost k: nat)
      requires Valid() && k < |items| && index == items[k] && newel !in items
      modifies this, items`next, items`prev, newel`next, newel`prev
      ensures Valid() && items == Inserted(old(items), k, newel)
      ensures current == old(current) && contents == Inserted(old(contents), k, newel.content)
    {
      assert |contents| == |items|;
      hide Inserted, Distinct, Forward, Backward, Holds;
      LinkBefore(newel, index, k);
      ghost var place := if cursor < k then cursor else cursor + 1;
      AtInserted(items, k, newel, |items|);
      AtInserted(items, k, newel, place);
      Adopt(newel, k, place);
    }

    /** `newel` has entered the links at index `k`. */
    method Adopt(newel: ListElement<T>, ghost k: nat, ghost place: int)
      requires k <= |items| && count == |items| && |contents| == |items| && -1 <= place <= |items|
      requires current == At(Inserted(items, k, newel), place)
      requires Distinct(Inserted(items, k, newel))
      requires Holds(Inserted(items, k, newel), Inserted(contents, k, newel.content))
      requires Forward(Inserted(items, k, newel)) && Backward(Inserted(items, k, newel))
      requires first == At(Inserted(items, k, newel), 0) && last == At(Inserted(items, k, newel), |items|)
      modifies this`count, this`items, this`contents, this`cursor
      ensures Valid() && items == Inserted(old(items), k, newel)
      ensures contents == Inserted(old(contents), k, newel.content) && cursor == place
    {
      ghost var s, c := Inserted(items, k, newel), Inserted(contents, k, newel.content);
      assert |s| == |items| + 1;
      hide Inserted, Distinct, Forward, Backward, Holds;
      count := count + 1;
      items, contents, cursor := s, c, place;
    }

    /** The links of `newel` and of its two neighbours. */
    method LinkBefore(newel: ListElement<T>, index: ListElement<T>, ghost k: nat)
      requires k < |items| && index == items[k] && newel !in items
      requires Distinct(items) && Forward(items) && Backward(items) && Holds(items, contents) && first == At(items, 0)
      modifies this`first, items`next, items`prev, newel`next, newel`prev
      ensures Forward(Inserted(items, k, newel)) && Backward(Inserted(items, k, newel))
      ensures Distinct(Inserted(items, k, newel))
      ensures Holds(Inserted(items, k, newel), Inserted(contents, k, newel.content))
      ensures first == At(Inserted(items, k, newel), 0)
    {
      StillDistinct(items, k, newel);
      StillHolds(items, contents, k, newel);
      newel.next := index;
      newel.prev := index.prev;
      index.prev := newel;
      BackwardInserted(items, k, newel);
      if newel.prev != null {
        newel.prev.next := newel;
      } else {
        first := newel;
      }
      ForwardInserted(items, k, newel);
      AtInserted(items, k, newel, 0);
    }

    method NextElement(pos: ListElement?<T>, ghost k: int) returns (next: ListElement?<T>)
      requires Valid() && -1 <= k < |items| && pos == At(items, k)
      ensures next == At(items, k + 1)
    {
      next := if pos == null then first else pos.next;
    }

    method PrevElement(pos: ListElement?<T>, ghost k: int) returns (prev: ListElement?<T>)
      requires Valid() && 0 <= k <= |items| && pos == At(items, k)
      ensures prev == At(items, k - 1)
    {
      prev := if pos == null then last else pos.prev;
    }

    /** The element found, or null; the cursor follows a successful search and stays put otherwise.  Comparing by
        content pointer is the search for `c => c == content`. */
    method FindItem(matches: T -> bool) returns (rc: ListElement?<T>)
      requires Valid()
      modifies this`current, this`cursor
      ensures Valid()
      ensures rc == null <==> forall i :: 0 <= i < |items| ==> !matches(contents[i])
      ensures rc != null ==> Finds(contents, old(cursor), matches, cursor) && rc == current
      ensures rc == null ==> cursor == old(cursor)
    {
      rc := null;
      if current != null && matches(current.content) {
        rc := current;
        assert matches(contents[cursor]);
      } else {
        var element := first;
        ghost var k := 0;
        while element != null
          invariant 0 <= k <= |items| && element == At(items, k)
          invariant rc == null && forall j :: 0 <= j < k ==> !matches(contents[j])
          decreases |items| - k
        {
          assert contents[k] == element.content;
          if matches(element.content) {
            rc := element;
            break;
          }
          element := element.next;
          k := k + 1;
        }
        if rc != null {
          assert matches(contents[k]);
          assert cursor >= 0 ==> !matches(contents[cursor]);
          current, cursor := rc, k;
        }
      }
    }

    /** Remove the element a search finds.  The cursor returns to where it was, or moves on to the next element
        when it stood on the one removed. */
    method Unlink(matches: T -> bool) returns (removed: bool, ghost k: int)
      requires Valid()
      modifies this, items
      ensures Valid()
      ensures removed <==> exists i :: 0 <= i < |old(items)| && matches(old(contents)[i])
      ensures !removed ==> items == old(items) && contents == old(contents) && cursor == old(cursor)
      ensures removed ==> Finds(old(contents), old(cursor), matches, k)
      ensures removed ==> items == Without(old(items), k) && contents == Without(old(contents), k)
      ensures removed && k != old(cursor) ==> current == old(current)
      ensures removed && k == old(cursor) ==> current == At(old(items), k + 1)
    {
      var saved := current;
      ghost var savedCursor := cursor;
      var found := FindItem(matches);
      if found == null {
        return false, -1;
      }
      k := cursor;
      hide Distinct, Forward, Backward, Holds, Without;
      assert matches(contents[k]);
      RemoveCurrent(saved, k, savedCursor);
      removed := true;
    }

    /** Unlink the element under the cursor, then move the cursor back to `saved` or past the gap. */
    method RemoveCurrent(saved: ListElement?<T>, ghost k: nat, ghost savedCursor: int)
      requires Valid() && cursor == k && -1 <= savedCursor < |items| && saved == At(items, savedCursor)
      modifies this, items
      ensures Valid()
      ensures items == Without(old(items), k) && contents == Without(old(contents), k)
      ensures current == if k != savedCursor then saved else At(old(items), k + 1)
    {
      assert saved == current <==> savedCursor == k;
      assert |contents| == |items|;
      hide Without, Distinct, Forward, Backward, Holds;
      Bridge(k);
      ghost var place := if savedCursor < k then savedCursor
                         else if savedCursor > k then savedCursor - 1
                         else if k + 1 < |items| then k else -1;
      AtWithout(items, k, place);
      var next := current.next;
      current := if saved == current then next else saved;
      Forget(k, place);
    }

    /** Element `k` has left the links. */
    method Forget(ghost k: nat, ghost place: int)
      requires k < |items| && count == |items| && |contents| == |items| && -1 <= place < |items| - 1
      requires current == At(Without(items, k), place)
      requires Distinct(Without(items, k)) && Holds(Without(items, k), Without(contents, k))
      requires Forward(Without(items, k)) && Backward(Without(items, k))
      requires first == At(Without(items, k), 0) && last == At(Without(items, k), |items| - 2)
      modifies this`count, this`items, this`contents, this`cursor
      ensures Valid() && items == Without(old(items), k) && contents == Without(old(contents), k) && cursor == place
    {
      ghost var s, c := Without(items, k), Without(contents, k);
      assert |s| == |items| - 1;
      hide Without, Distinct, Forward, Backward, Holds;
      count := count - 1;
      items, contents, cursor := s, c, place;
    }

    /** The neighbours of `current` now lead to each other. */
    method Bridge(ghost k: nat)
      requires k < |items| && current == items[k] && Distinct(items) && Forward(items) && Backward(items)
      requires Holds(items, contents) && first == At(items, 0) && last == At(items, |items| - 1)
      modifies this`first, this`last, items`next, items`prev
      ensures Distinct(Without(items, k)) && Holds(Without(items, k), Without(contents, k))
      ensures Forward(Without(items, k)) && Backward(Without(items, k))
      ensures first == At(Without(items, k), 0) && last == At(Without(items, k), |items| - 2)
      ensures current.next == At(items, k + 1)
    {
      hide Without;
      BridgeForward(k);
      assert Forward(Without(items, k));
      BridgeBackward(k);
      assert Forward(Without(items, k));
      StillDistinct(items, k, items[k]);
      StillHolds(items, contents, k, items[k]);
    }

    /** The element before `current` now leads to the one after it. */
    method BridgeForward(ghost k: nat)
      requires k < |items| && current == items[k] && Distinct(items) && Forward(items) && Backward(items)
      requires first == At(items, 0)
      modifies this`first, (if k > 0 then {items[k - 1]} else {})`next
      ensures Forward(Without(items, k)) && first == At(Without(items, k), 0)
      ensures current.next == At(items, k + 1)
    {
      if current.prev == null {
        first := current.next;
      } else {
        current.prev.next := current.next;
      }
      ForwardWithout(items, k);
      AtWithout(items, k, 0);
    }

    /** The element after `current` now leads back to the one before it. */
    method BridgeBackward(ghost k: nat)
      requires k < |items| && current == items[k] && Distinct(items) && Backward(items)
      requires current.next == At(items, k + 1) && last == At(items, |items| - 1)
      modifies this`last, (if k + 1 < |items| then {items[k + 1]} else {})`prev
      ensures Backward(Without(items, k)) && last == At(Without(items, k), |items| - 2)
    {
      if current.next == null {
        last := current.prev;
      } else {
        current.next.prev := current.prev;
      }
      BackwardWithout(items, k);
      AtWithout(items, k, |items| - 2);
    }

    /** The content of the first element, if there is one. */
    method DetachHead() returns (content: Option<T>)
      requires Valid()
      modifies this, items
      ensures Valid()
      ensures old(items) == [] ==> content == None && items == [] && current == null
      ensures old(items) != [] ==> content == Some(old(contents)[0])
                                   && items == Without(old(items), 0) && contents == Without(old(contents), 0)
                                   && current == if old(cursor) == 0 then At(old(items), 1) else old(current)
    {
      content := None;
      if count > 0 {
        assert current == first <==> cursor == 0;
        content := Some(first.content);
        hide Without, Distinct, Holds;
        ghost var place := if cursor > 0 then cursor - 1 else if cursor == 0 && |items| > 1 then 0 else -1;
        AtWithout(items, 0, place);
        if current == first {
          current := first.next;
        }
        CutHead();
        Forget(0, place);
      }
    }

    method CutHead()
      requires items != [] && Distinct(items) && Forward(items) && Backward(items) && Holds(items, contents)
      requires first == items[0] && last == items[|items| - 1]
      modifies this`first, this`last, items`prev
      ensures Distinct(Without(items, 0)) && Holds(Without(items, 0), Without(contents, 0))
      ensures Forward(Without(items, 0)) && Backward(Without(items, 0))
      ensures first == At(Without(items, 0), 0) && last == At(Without(items, 0), |items| - 2)
    {
      StillDistinct(items, 0, items[0]);
      StillHolds(items, contents, 0, items[0]);
      AtWithout(items, 0, 0);
      AtWithout(items, 0, |items| - 2);
      if last == first {
        last := null;
      }
      first := first.next;
      if first != null {
        first.prev := null;
      }
      ForwardWithout(items, 0);
      BackwardWithout(items, 0);
    }

    /** The content of the last element, if there is one. */
    method PopTail() returns (content: Option<T>)
      requires Valid()
      modifies this, items
      ensures Valid()
      ensures old(items) == [] ==> content == None && items == [] && current == null
      ensures old(items) != [] ==>
                var n := |old(items)| - 1;
                content == Some(old(contents)[n])
                && items == Without(old(items), n) && contents == Without(old(contents), n)
                && current == if old(cursor) == n then At(old(items), n - 1) else old(current)
    {
      content := None;
      if count > 0 {
        ghost var n := |items| - 1;
        assert current == last <==> cursor == n;
        content := Some(last.content);
        hide Without, Distinct, Holds;
        ghost var place := if cursor == n then n - 1 else cursor;
        AtWithout(items, n, place);
        if current == last {
          current := last.prev;
        }
        CutTail();
        Forget(n, place);
      }
    }

    method CutTail()
      requires items != [] && Distinct(items) && Forward(items) && Backward(items) && Holds(items, contents)
      requires first == items[0] && last == items[|items| - 1]
      modifies this`first, this`last, items`next
      ensures var n := |items| - 1; Distinct(Without(items, n)) && Holds(Without(items, n), Without(contents, n))
                                    && Forward(Without(items, n)) && Backward(Without(items, n))
      ensures first == At(Without(items, |items| - 1), 0) && last == At(Without(items, |items| - 1), |items| - 2)
    {
      ghost var n := |items| - 1;
      StillDistinct(items, n, items[n]);
      StillHolds(items, contents, n, items[n]);
      AtWithout(items, n, 0);
      AtWithout(items, n, n - 1);
      if first == last {
        first := null;
      }
      last := last.prev;
      if last != null {
        last.next := null;
      }
      ForwardWithout(items, n);
      BackwardWithout(items, n);
    }

    method Empty()
      requires Valid()
      modifies this
      ensures Valid() && items == [] && contents == [] && count == 0 && current == null
    {
      ghost var i := 0;
      while first != null
        invariant 0 <= i <= |items| && first == At(items, i)
        invariant items == old(items) && Forward(items)
        decreases |items| - i
      {
        first := first.next;
        i := i + 1;
      }
      count := 0;
      current, first, last := null, null, null;
      items, contents, cursor := [], [], -1;
    }
  }
}
