/** How `_save_container_state` and `_load_container_state` name the trackable
    items of one container. A container is seen through its labels: the
    snake-cased class name of each trackable item, `None` for any other item. */
module ContainerNaming {
  import opened Results
  import opened Paths

  /** How many items of `ls` carry label `b`. */
  function Occurrences(ls: seq<Option<string>>, b: string): nat
  {
    if ls == [] then 0
    else Occurrences(ls[..|ls| - 1], b) + (if ls[|ls| - 1] == Some(b) then 1 else 0)
  }

  /** Reference definition of the name of the `j`-th item: its label the first
      time that label occurs in the container, `label_k` for the `k`-th repeat. */
  function ContainerName(ls: seq<Option<string>>, j: nat): string
    requires j < |ls| && ls[j].Some?
  {
    var b := ls[j].value;
    var n := Occurrences(ls[..j], b);
    if n == 0 then b else b + "_" + NatToString(n)
  }

  lemma OccurrencesSnoc(ls: seq<Option<string>>, x: Option<string>, b: string)
    ensures Occurrences(ls + [x], b) == Occurrences(ls, b) + (if x == Some(b) then 1 else 0)
  {
    assert (ls + [x])[..|ls|] == ls;
  }

  /** Counting over a longer prefix never finds fewer, and finds more once it
      passes an item with that label. */
  lemma {:induction false} OccurrencesGrow(ls: seq<Option<string>>, b: string, j: nat, k: nat)
    requires j <= k <= |ls|
    ensures Occurrences(ls[..j], b) <= Occurrences(ls[..k], b)
    ensures j < k && ls[j] == Some(b) ==> Occurrences(ls[..j], b) < Occurrences(ls[..k], b)
  {
    if j < k {
      OccurrencesGrow(ls, b, j, k - 1);
      assert ls[..k] == ls[..k - 1] + [ls[k - 1]];
      OccurrencesSnoc(ls[..k - 1], ls[k - 1], b);
      if ls[j] == Some(b) && j == k - 1 {
        assert ls[..j] == ls[..k - 1];
      }
    }
  }

  /** The items of one container get pairwise distinct names, provided no label
      already looks like a repeat (`name_<digits>`). */
  lemma ContainerNamesDistinct(ls: seq<Option<string>>, j: nat, k: nat)
    requires j < k < |ls| && ls[j].Some? && ls[k].Some?
    requires forall m :: 0 <= m < |ls| && ls[m].Some? ==> !HasNumericSuffix(ls[m].value)
    ensures ContainerName(ls, j) != ContainerName(ls, k)
  {
    var bj, bk := ls[j].value, ls[k].value;
    var nj, nk := Occurrences(ls[..j], bj), Occurrences(ls[..k], bk);
    if bj == bk {
      OccurrencesGrow(ls, bj, j, k);
    }
    if nj > 0 && nk > 0 && ContainerName(ls, j) == ContainerName(ls, k) {
      SuffixedNameSplit(bj, NatToString(nj), bk, NatToString(nk));
      NatToStringInjective(nj, nk);
      assert false;
    }
    if nj == 0 && nk > 0 {
      SuffixedNameHasNumericSuffix(bk, nk);
    }
    if nj > 0 && nk == 0 {
      SuffixedNameHasNumericSuffix(bj, nj);
    }
  }

  /** Without that proviso two items can share a name: a class whose snake-cased
      name is `foo_1` after two `foo` items gets the name of the second `foo`. */
  lemma RepeatLikeLabelCollides()
    ensures ContainerName([Some("foo"), Some("foo"), Some("foo_1")], 1) == "foo_1"
    ensures ContainerName([Some("foo"), Some("foo"), Some("foo_1")], 2) == "foo_1"
  {
    var ls := [Some("foo"), Some("foo"), Some("foo_1")];
    assert ls[..1] == [Some("foo")] && ls[..2] == [Some("foo"), Some("foo")];
    assert "foo" != "foo_1" by {
      assert |"foo"| != |"foo_1"|;
    }
    OccurrencesSnoc([], Some("foo"), "foo");
    OccurrencesSnoc([], Some("foo"), "foo_1");
    OccurrencesSnoc([Some("foo")], Some("foo"), "foo_1");
    assert [] + [Some("foo")] == [Some("foo")];
    assert [Some("foo")] + [Some("foo")] == ls[..2];
    assert NatToString(1) == "1";
  }

  /** A name is a path component whenever the label is one. */
  lemma ContainerNameIsSegment(ls: seq<Option<string>>, j: nat)
    requires j < |ls| && ls[j].Some? && Segment(ls[j].value)
    ensures Segment(ContainerName(ls, j))
  {
    var n := Occurrences(ls[..j], ls[j].value);
    if n > 0 {
      SuffixedNameIsSegment(ls[j].value, n);
    }
  }

  lemma {:induction false} OccurrencesSkipNone(a: seq<Option<string>>, c: seq<Option<string>>, b: string)
    ensures Occurrences(a + [None] + c, b) == Occurrences(a + c, b)
  {
    if c == [] {
      assert a + [None] + c == a + [None];
      assert a + c == a;
      OccurrencesSnoc(a, None, b);
    } else {
      var c' := c[..|c| - 1];
      var x := c[|c| - 1];
      assert a + [None] + c == (a + [None] + c') + [x];
      assert a + c == (a + c') + [x];
      OccurrencesSnoc(a + [None] + c', x, b);
      OccurrencesSnoc(a + c', x, b);
      OccurrencesSkipNone(a, c', b);
    }
  }

  /** An item that is not trackable takes no name and moves no counter: putting
      one anywhere before the `j`-th item leaves that item's name as it was. */
  lemma PlainItemTakesNoName(ls: seq<Option<string>>, k: nat, j: nat)
    requires k <= j < |ls| && ls[j].Some?
    ensures var ls' := ls[..k] + [None] + ls[k..];
            ls'[j + 1] == ls[j] && ContainerName(ls', j + 1) == ContainerName(ls, j)
  {
    var ls' := ls[..k] + [None] + ls[k..];
    assert ls'[j + 1] == ls[j];
    assert ls'[..j + 1] == ls[..k] + [None] + ls[k..j];
    assert ls[..j] == ls[..k] + ls[k..j];
    OccurrencesSkipNone(ls[..k], ls[k..j], ls[j].value);
  }
}
