/** List operations shared by the components: removing the records with a given
    id (`xs.filter(x => x.id !== id)`), toggling an id in a selection, and
    concatenating per-page results. */
module ListOps {

  /** `a` is `b` with some elements left out, the rest in their original order. */
  ghost predicate IsSubsequence<T>(a: seq<T>, b: seq<T>)
    decreases |b|
  {
    if |a| == 0 then true
    else if |b| == 0 then false
    else if a[0] == b[0] then IsSubsequence(a[1..], b[1..])
    else IsSubsequence(a, b[1..])
  }

  /** How many elements of `xs` have id `k`. */
  function CountKey<T>(xs: seq<T>, key: T -> int, k: int): (n: nat)
    ensures n <= |xs|
    decreases |xs|
  {
    if |xs| == 0 then 0
    else (if key(xs[0]) == k then 1 else 0) + CountKey(xs[1..], key, k)
  }

  /** `xs.filter(x => key(x) !== k)`. */
  function RemoveKey<T>(xs: seq<T>, key: T -> int, k: int): (r: seq<T>)
    ensures |r| + CountKey(xs, key, k) == |xs|
    ensures forall i :: 0 <= i < |r| ==> key(r[i]) != k
    decreases |xs|
  {
    if |xs| == 0 then []
    else if key(xs[0]) == k then RemoveKey(xs[1..], key, k)
    else [xs[0]] + RemoveKey(xs[1..], key, k)
  }

  /** Removing keeps the other elements in their order. */
  lemma {:induction false} RemoveKeyIsSubsequence<T>(xs: seq<T>, key: T -> int, k: int)
    ensures IsSubsequence(RemoveKey(xs, key, k), xs)
    decreases |xs|
  {
    if |xs| > 0 {
      RemoveKeyIsSubsequence(xs[1..], key, k);
      var r := RemoveKey(xs, key, k);
      if key(xs[0]) == k {
        SubsequenceOfTail(r, xs);
      } else {
        assert r[0] == xs[0] && r[1..] == RemoveKey(xs[1..], key, k);
      }
    }
  }

  lemma {:induction false} SubsequenceOfTail<T>(a: seq<T>, b: seq<T>)
    requires |b| > 0
    requires IsSubsequence(a, b[1..])
    ensures IsSubsequence(a, b)
    decreases |b|, |a|
  {
    if |a| > 0 && a[0] == b[0] {
      // greedy matching of a[0] against b[0] leaves a[1..] to match in b[1..]
      SubsequenceDropHead(a, b[1..]);
    }
  }

  lemma {:induction false} SubsequenceDropHead<T>(a: seq<T>, b: seq<T>)
    requires |a| > 0
    requires IsSubsequence(a, b)
    ensures IsSubsequence(a[1..], b)
    decreases |b|, |a|
  {
    if |b| > 0 {
      if a[0] == b[0] {
        SubsequenceOfTail(a[1..], b);
      } else {
        SubsequenceDropHead(a, b[1..]);
        SubsequenceOfTail(a[1..], b);
      }
    }
  }

  /** A subsequence has at most as many elements with id `k` as the list. */
  lemma {:induction false} SubsequenceCount<T>(a: seq<T>, b: seq<T>, key: T -> int, k: int)
    requires IsSubsequence(a, b)
    ensures CountKey(a, key, k) <= CountKey(b, key, k)
    decreases |b|
  {
    if |a| > 0 && |b| > 0 {
      if a[0] == b[0] {
        SubsequenceCount(a[1..], b[1..], key, k);
      } else {
        SubsequenceCount(a, b[1..], key, k);
      }
    }
  }

  /** RemoveKey is the ONLY list that keeps order, has no element with id `k`,
      and drops nothing else: an independent description of the filter. */
  lemma {:induction false} RemoveKeyCharacterized<T>(r: seq<T>, xs: seq<T>, key: T -> int, k: int)
    requires IsSubsequence(r, xs)
    requires forall i :: 0 <= i < |r| ==> key(r[i]) != k
    requires |r| + CountKey(xs, key, k) == |xs|
    ensures r == RemoveKey(xs, key, k)
    decreases |xs|
  {
    if |xs| == 0 {
    } else if |r| == 0 {
      assert CountKey(xs, key, k) == |xs|;
      AllKeyed(xs, key, k);
    } else if r[0] == xs[0] {
      assert key(xs[0]) != k;
      assert forall i :: 0 <= i < |r[1..]| ==> key(r[1..][i]) != k by {
        forall i | 0 <= i < |r[1..]| ensures key(r[1..][i]) != k {
          assert r[1..][i] == r[i + 1];
        }
      }
      RemoveKeyCharacterized(r[1..], xs[1..], key, k);
    } else if key(xs[0]) == k {
      RemoveKeyCharacterized(r, xs[1..], key, k);
    } else {
      // r skips xs[0], which it had to keep: too short to meet the count
      SubsequenceKeptCount(r, xs[1..], key, k);
      assert false;
    }
  }

  lemma {:induction false} AllKeyed<T>(xs: seq<T>, key: T -> int, k: int)
    requires CountKey(xs, key, k) == |xs|
    ensures RemoveKey(xs, key, k) == []
    decreases |xs|
  {
    if |xs| > 0 {
      AllKeyed(xs[1..], key, k);
    }
  }

  lemma {:induction false} NoKeyCount<T>(xs: seq<T>, key: T -> int, k: int)
    requires forall i :: 0 <= i < |xs| ==> key(xs[i]) != k
    ensures CountKey(xs, key, k) == 0
    decreases |xs|
  {
    if |xs| > 0 {
      assert key(xs[0]) != k;
      NoKeyCount(xs[1..], key, k);
    }
  }

  lemma {:induction false} SubsequenceLength<T>(a: seq<T>, b: seq<T>)
    requires IsSubsequence(a, b)
    ensures |a| <= |b|
    decreases |b|
  {
    if |a| > 0 && |b| > 0 {
      if a[0] == b[0] {
        SubsequenceLength(a[1..], b[1..]);
      } else {
        SubsequenceLength(a, b[1..]);
      }
    }
  }

  /** A subsequence avoiding id `k` has at most as many elements as the list
      has elements with another id. */
  lemma {:induction false} SubsequenceKeptCount<T>(a: seq<T>, b: seq<T>, key: T -> int, k: int)
    requires IsSubsequence(a, b)
    requires forall i :: 0 <= i < |a| ==> key(a[i]) != k
    ensures |a| + CountKey(b, key, k) <= |b|
    decreases |b|
  {
    if |a| > 0 && |b| > 0 {
      if a[0] == b[0] {
        assert forall i :: 0 <= i < |a[1..]| ==> key(a[1..][i]) != k by {
          forall i | 0 <= i < |a[1..]| ensures key(a[1..][i]) != k {
            assert a[1..][i] == a[i + 1];
          }
        }
        SubsequenceKeptCount(a[1..], b[1..], key, k);
      } else {
        SubsequenceKeptCount(a, b[1..], key, k);
      }
    }
  }

  /** Removing an id no element carries changes nothing. */
  lemma {:induction false} RemoveAbsentKey<T>(xs: seq<T>, key: T -> int, k: int)
    requires forall i :: 0 <= i < |xs| ==> key(xs[i]) != k
    ensures RemoveKey(xs, key, k) == xs
    decreases |xs|
  {
    if |xs| > 0 {
      assert key(xs[0]) != k;
      RemoveAbsentKey(xs[1..], key, k);
      assert [xs[0]] + xs[1..] == xs;
    }
  }

  /** An element survives the filter exactly when it was there and has another id. */
  lemma {:induction false} RemoveKeyMembers<T>(xs: seq<T>, key: T -> int, k: int, x: T)
    ensures x in RemoveKey(xs, key, k) <==> x in xs && key(x) != k
    decreases |xs|
  {
    if |xs| > 0 {
      RemoveKeyMembers(xs[1..], key, k, x);
      assert xs == [xs[0]] + xs[1..];
    }
  }

  /** Removing the id of a record just appended, when no earlier record has
      it, gives back the list before the append. */
  lemma {:induction false} RemoveKeyAppended<T>(xs: seq<T>, x: T, key: T -> int, k: int)
    requires key(x) == k
    requires forall i :: 0 <= i < |xs| ==> key(xs[i]) != k
    ensures RemoveKey(xs + [x], key, k) == xs
    decreases |xs|
  {
    if |xs| == 0 {
      assert xs + [x] == [x];
    } else {
      assert (xs + [x])[1..] == xs[1..] + [x];
      assert key(xs[0]) != k;
      RemoveKeyAppended(xs[1..], x, key, k);
      assert [xs[0]] + xs[1..] == xs;
    }
  }

  /** Some element satisfies `P` exactly when the first does or one of the rest. */
  lemma ExistsHeadOrTail<T>(xs: seq<T>, P: T -> bool)
    requires |xs| > 0
    ensures (exists i :: 0 <= i < |xs| && P(xs[i])) <==>
              P(xs[0]) || exists i :: 0 <= i < |xs[1..]| && P(xs[1..][i])
  {
    if exists i :: 0 <= i < |xs| && P(xs[i]) {
      var i :| 0 <= i < |xs| && P(xs[i]);
      if i > 0 {
        assert P(xs[1..][i - 1]);
      }
    }
    if exists i :: 0 <= i < |xs[1..]| && P(xs[1..][i]) {
      var i :| 0 <= i < |xs[1..]| && P(xs[1..][i]);
      assert P(xs[i + 1]);
    }
  }

  /** `xs.map(f).filter(y => y.length > 0)`: the non-empty images, in order. */
  function MapNonEmpty<T, U>(xs: seq<T>, f: T -> seq<U>): (r: seq<seq<U>>)
    ensures |r| <= |xs|
    decreases |xs|
  {
    if |xs| == 0 then
      []
    else
      var y := f(xs[0]);
      var rest := MapNonEmpty(xs[1..], f);
      if |y| == 0 then rest else [y] + rest
  }

  /** The result holds exactly the non-empty images of the inputs. */
  lemma {:induction false} MapNonEmptyMembers<T, U>(xs: seq<T>, f: T -> seq<U>, y: seq<U>)
    ensures y in MapNonEmpty(xs, f) <==> |y| > 0 && exists i :: 0 <= i < |xs| && f(xs[i]) == y
    decreases |xs|
  {
    if |xs| > 0 {
      MapNonEmptyMembers(xs[1..], f, y);
      ExistsHeadOrTail(xs, x => f(x) == y);
      assert (exists i :: 0 <= i < |xs| && f(xs[i]) == y) <==>
             f(xs[0]) == y || exists i :: 0 <= i < |xs[1..]| && f(xs[1..][i]) == y;
    }
  }

  /** Non-empty fixed points of `f` pass through unchanged. */
  lemma {:induction false} MapNonEmptyFixed<T>(xs: seq<seq<T>>, f: seq<T> -> seq<T>)
    requires forall i :: 0 <= i < |xs| ==> |xs[i]| > 0 && f(xs[i]) == xs[i]
    ensures MapNonEmpty(xs, f) == xs
    decreases |xs|
  {
    if |xs| > 0 {
      assert forall i :: 0 <= i < |xs[1..]| ==> xs[1..][i] == xs[i + 1];
      MapNonEmptyFixed(xs[1..], f);
      assert [xs[0]] + xs[1..] == xs;
    }
  }

  predicate NoDuplicates<T(==)>(xs: seq<T>) {
    forall i, j :: 0 <= i < j < |xs| ==> xs[i] != xs[j]
  }

  /** Each id is its own key: `xs.filter(x => x !== id)` is `RemoveKey(xs, Identity, id)`. */
  function Identity(n: int): int { n }

  /** Filtering keeps a list free of duplicates. */
  lemma {:induction false} RemoveKeyNoDuplicates<T>(xs: seq<T>, key: T -> int, k: int)
    requires NoDuplicates(xs)
    ensures NoDuplicates(RemoveKey(xs, key, k))
    decreases |xs|
  {
    if |xs| > 0 {
      assert NoDuplicates(xs[1..]);
      RemoveKeyNoDuplicates(xs[1..], key, k);
      var rest := RemoveKey(xs[1..], key, k);
      if key(xs[0]) != k {
        assert xs[0] !in xs[1..];
        RemoveKeyMembers(xs[1..], key, k, xs[0]);
        assert xs[0] !in rest;
      }
    }
  }

  /** Unticking an id: the id is gone and every other id keeps its membership. */
  lemma RemoveIdMembers(xs: seq<int>, id: int)
    ensures id !in RemoveKey(xs, Identity, id)
    ensures forall x :: x != id ==> (x in RemoveKey(xs, Identity, id) <==> x in xs)
  {
    forall x {
      RemoveKeyMembers(xs, Identity, id, x);
    }
  }

  /** The checkbox toggle `prev.includes(id) ? prev.filter(x => x !== id) : [...prev, id]`:
      a new id goes to the end, and unticking keeps the others in their order. */
  function Toggle(sel: seq<int>, id: int): (r: seq<int>)
    ensures id in r <==> id !in sel
    ensures forall x :: x != id ==> (x in r <==> x in sel)
    ensures NoDuplicates(sel) ==> NoDuplicates(r)
    ensures id !in sel ==> r == sel + [id]
    ensures id in sel ==> r == RemoveKey(sel, Identity, id)
  {
    RemoveIdMembers(sel, id);
    if id in sel then
      assert NoDuplicates(sel) ==> NoDuplicates(RemoveKey(sel, Identity, id)) by {
        if NoDuplicates(sel) {
          RemoveKeyNoDuplicates(sel, Identity, id);
        }
      }
      RemoveKey(sel, Identity, id)
    else
      sel + [id]
  }

  /** Toggling an unselected id twice restores the selection. */
  lemma {:induction false} ToggleTwiceAbsent(sel: seq<int>, id: int)
    requires id !in sel
    ensures Toggle(Toggle(sel, id), id) == sel
  {
    assert forall i :: 0 <= i < |sel| ==> Identity(sel[i]) != id;
    RemoveKeyAppended(sel, id, Identity, id);
  }

  /** Toggling a selected id twice does not restore the selection: the id
      moves to the end. */
  lemma ToggleTwicePresent(sel: seq<int>, id: int)
    requires id in sel
    ensures Toggle(Toggle(sel, id), id) == RemoveKey(sel, Identity, id) + [id]
  {
  }

  /** The concatenation of a list of lists, first to last. */
  function Flatten<T>(xss: seq<seq<T>>): (r: seq<T>)
    decreases |xss|
  {
    if |xss| == 0 then [] else Flatten(xss[..|xss| - 1]) + xss[|xss| - 1]
  }

  /** Every element of the concatenation comes from one of the lists, and back. */
  lemma {:induction false} FlattenMembers<T>(xss: seq<seq<T>>, x: T)
    ensures x in Flatten(xss) <==> exists i :: 0 <= i < |xss| && x in xss[i]
    decreases |xss|
  {
    if |xss| > 0 {
      var init := xss[..|xss| - 1];
      FlattenMembers(init, x);
      assert forall i :: 0 <= i < |init| ==> init[i] == xss[i];
      if x in xss[|xss| - 1] {
      }
    }
  }

  /** The length of the concatenation is the sum of the lengths. */
  function TotalLength<T>(xss: seq<seq<T>>): nat
    decreases |xss|
  {
    if |xss| == 0 then 0 else |xss[0]| + TotalLength(xss[1..])
  }

  lemma {:induction false} FlattenCons<T>(xs: seq<T>, xss: seq<seq<T>>)
    ensures Flatten([xs] + xss) == xs + Flatten(xss)
    decreases |xss|
  {
    if |xss| == 0 {
      assert [xs] + xss == [xs];
      assert Flatten([xs]) == Flatten([xs][..0]) + xs;
    } else {
      var all := [xs] + xss;
      assert all[..|all| - 1] == [xs] + xss[..|xss| - 1];
      FlattenCons(xs, xss[..|xss| - 1]);
    }
  }

  lemma {:induction false} FlattenLength<T>(xss: seq<seq<T>>)
    ensures |Flatten(xss)| == TotalLength(xss)
    decreases |xss|
  {
    if |xss| > 0 {
      assert xss == [xss[0]] + xss[1..];
      FlattenCons(xss[0], xss[1..]);
      FlattenLength(xss[1..]);
    }
  }
}
