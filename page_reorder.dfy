/**
 * Page reordering (features/pdf/PageReorderScreen.tsx): the list of page
 * items built from the page uris, and `move(from, to)`, which takes one item
 * out of a copy of the list and puts it back at another index. Only the list
 * logic is modelled, not the screen.
 */
module PageReorder {
  import opened Wrappers

  datatype PageItem = PageItem(uri: string, id: string)

  function DigitChar(d: nat): char
    requires d < 10
  {
    "0123456789"[d]
  }

  /** `${n}`: the decimal text of a natural number. */
  function NatToString(n: nat): (r: string)
    ensures |r| >= 1
    ensures n < 10 <==> |r| == 1
    decreases n
  {
    if n < 10 then [DigitChar(n)] else NatToString(n / 10) + [DigitChar(n % 10)]
  }

  lemma DigitCharInjective(a: nat, b: nat)
    requires a < 10 && b < 10 && DigitChar(a) == DigitChar(b)
    ensures a == b
  {
  }

  /** Different numbers have different decimal texts. */
  lemma {:induction false} NatToStringInjective(a: nat, b: nat)
    requires NatToString(a) == NatToString(b)
    ensures a == b
    decreases a
  {
    if a < 10 {
      DigitCharInjective(a, b);
    } else {
      var sa, sb := NatToString(a), NatToString(b);
      assert sa[..|sa| - 1] == NatToString(a / 10) && sb[..|sb| - 1] == NatToString(b / 10);
      assert sa[|sa| - 1] == DigitChar(a % 10) && sb[|sb| - 1] == DigitChar(b % 10);
      NatToStringInjective(a / 10, b / 10);
      DigitCharInjective(a % 10, b % 10);
    }
  }

  /**
   * The initial items: one per uri of the `pages` parameter (none when it is
   * absent), in the given order, with ids "0" to "n-1".
   */
  function InitialPages(pages: Option<seq<string>>): (r: seq<PageItem>)
    ensures pages.None? ==> r == []
    ensures pages.Some? ==> |r| == |pages.value|
    ensures pages.Some? ==> forall i :: 0 <= i < |r| ==> r[i].uri == pages.value[i] && r[i].id == NatToString(i)
  {
    var uris := if pages.Some? then pages.value else [];
    seq(|uris|, i requires 0 <= i < |uris| => PageItem(uris[i], NatToString(i)))
  }

  /** The initial items' ids are pairwise distinct. */
  lemma InitialIdsDistinct(pages: Option<seq<string>>, i: int, j: int)
    requires 0 <= i < |InitialPages(pages)| && 0 <= j < |InitialPages(pages)| && i != j
    ensures InitialPages(pages)[i].id != InitialPages(pages)[j].id
  {
    if InitialPages(pages)[i].id == InitialPages(pages)[j].id {
      NatToStringInjective(i, j);
    }
  }

  /** `splice(k, 1)`: the list without the item at `k`. */
  function RemoveAt<T>(s: seq<T>, k: int): (r: seq<T>)
    requires 0 <= k < |s|
    ensures |r| == |s| - 1
    ensures forall i :: 0 <= i < k ==> r[i] == s[i]
    ensures forall i :: k <= i < |r| ==> r[i] == s[i + 1]
  {
    s[..k] + s[k + 1..]
  }

  /** `splice(k, 0, x)`: the list with `x` inserted before index `k`. */
  function InsertAt<T>(s: seq<T>, k: int, x: T): (r: seq<T>)
    requires 0 <= k <= |s|
    ensures |r| == |s| + 1
    ensures r[k] == x
    ensures forall i :: 0 <= i < k ==> r[i] == s[i]
    ensures forall i :: k < i < |r| ==> r[i] == s[i - 1]
  {
    s[..k] + [x] + s[k..]
  }

  /** The list `move(from, to)` produces. */
  function Moved<T>(s: seq<T>, from: int, to: int): (r: seq<T>)
    requires 0 <= from < |s| && 0 <= to < |s|
    ensures |r| == |s| && r[to] == s[from]
  {
    InsertAt(RemoveAt(s, from), to, s[from])
  }

  /**
   * `move(from, to)`: copy the list, take the item at `from` out, put it back
   * at `to`. The result is a permutation of the list in which the moved item
   * sits at `to` and the other items keep their relative order.
   */
  method Move(prev: seq<PageItem>, from: int, to: int) returns (next: seq<PageItem>)
    requires 0 <= from < |prev| && 0 <= to < |prev|
    ensures next == Moved(prev, from, to)
    ensures |next| == |prev| && multiset(next) == multiset(prev)
    ensures next[to] == prev[from]
    ensures RemoveAt(next, to) == RemoveAt(prev, from)
  {
    next := prev;
    var item := next[from];
    next := next[..from] + next[from + 1..];
    next := next[..to] + [item] + next[to..];
    MovedProperties(prev, from, to);
  }

  /** What `Moved` does: length, contents, the moved item's new place and the others' order. */
  lemma MovedProperties<T>(s: seq<T>, from: int, to: int)
    requires 0 <= from < |s| && 0 <= to < |s|
    ensures |Moved(s, from, to)| == |s|
    ensures multiset(Moved(s, from, to)) == multiset(s)
    ensures Moved(s, from, to)[to] == s[from]
    ensures RemoveAt(Moved(s, from, to), to) == RemoveAt(s, from)
  {
    var rest := RemoveAt(s, from);
    var m := Moved(s, from, to);
    assert s == s[..from] + [s[from]] + s[from + 1..];
    assert m == rest[..to] + [s[from]] + rest[to..];
    assert rest == rest[..to] + rest[to..];
    calc {
      multiset(m);
      multiset(rest[..to]) + multiset{s[from]} + multiset(rest[to..]);
      multiset(rest) + multiset{s[from]};
      multiset(s[..from]) + multiset(s[from + 1..]) + multiset{s[from]};
      multiset(s);
    }
    assert m[..to] == rest[..to] && m[to + 1..] == rest[to..];
  }

  /** `move(i, i)` leaves the list as it was. */
  lemma MoveInPlace<T>(s: seq<T>, i: int)
    requires 0 <= i < |s|
    ensures Moved(s, i, i) == s
  {
    assert s == s[..i] + [s[i]] + s[i + 1..];
  }

  /** Moving an item and then moving it back restores the list. */
  lemma MoveBack<T>(s: seq<T>, from: int, to: int)
    requires 0 <= from < |s| && 0 <= to < |s|
    ensures Moved(Moved(s, from, to), to, from) == s
  {
    var m := Moved(s, from, to);
    MovedProperties(s, from, to);
    assert Moved(m, to, from) == InsertAt(RemoveAt(s, from), from, s[from]);
    assert s == s[..from] + [s[from]] + s[from + 1..];
  }

  /** Pressing Up on item `i` and then Down on the same item (now at `i - 1`) restores the list. */
  lemma UpThenDown<T>(s: seq<T>, i: int)
    requires 0 < i < |s|
    ensures Moved(Moved(s, i, i - 1), i - 1, i) == s
  {
    MoveBack(s, i, i - 1);
  }

  /** Up is enabled on every row but the first. */
  predicate UpEnabled(index: int) {
    index != 0
  }

  /** Down is enabled on every row but the last. */
  predicate DownEnabled(index: int, count: int) {
    index != count - 1
  }

  /**
   * The buttons only call `move` with indexes in range: Up on an enabled row
   * moves to `index - 1`, Down to `index + 1`, both inside the list.
   */
  lemma ButtonsStayInRange(index: int, count: int)
    requires 0 <= index < count
    ensures UpEnabled(index) ==> 0 <= index - 1 < count
    ensures DownEnabled(index, count) ==> 0 <= index + 1 < count
  {
  }
}
