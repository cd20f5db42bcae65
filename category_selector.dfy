/** Category selection on the setup screen: a tap toggles one category in or out of the selection,
    but the last selected category cannot be removed. */
module CategorySelector {
  import opened Types

  /** The categories offered, in display order. */
  const Offered: seq<Category> := AllCategories

  lemma OfferedIsFixed()
    ensures Offered == [Wahrheit, Aufgabe, Gruppe, Duell, Wildcard]
    ensures forall c: Category :: c in Offered
    ensures NoDuplicates(Offered)
  {
    forall c: Category ensures c in Offered {
      match c
      case Wahrheit => assert Offered[0] == c;
      case Aufgabe => assert Offered[1] == c;
      case Gruppe => assert Offered[2] == c;
      case Duell => assert Offered[3] == c;
      case Wildcard => assert Offered[4] == c;
    }
  }

  predicate NoDuplicates(s: seq<Category>) {
    forall i, j :: 0 <= i < j < |s| ==> s[i] != s[j]
  }

  /** `filter(c => c !== category)`. */
  function Without(s: seq<Category>, c: Category): (r: seq<Category>)
    ensures |r| <= |s|
    ensures c !in r
    ensures forall x :: x in r <==> x in s && x != c
    ensures forall x :: x != c ==> multiset(r)[x] == multiset(s)[x]
  {
    if |s| == 0 then []
    else
      assert s == [s[0]] + s[1..];
      if s[0] == c then Without(s[1..], c) else [s[0]] + Without(s[1..], c)
  }

  /** toggleCategory: the new selection handed to the callback, or None when the callback is not
      called (the only selected category was tapped). */
  function Toggle(selected: seq<Category>, c: Category): Option<seq<Category>> {
    if c in selected then
      if |selected| == 1 then None else Some(Without(selected, c))
    else Some(selected + [c])
  }

  /** In a selection without repeats, removing `c` removes exactly its one position: the other
      categories keep their order. */
  lemma {:induction false} WithoutKeepsOrder(s: seq<Category>, i: int)
    requires NoDuplicates(s) && 0 <= i < |s|
    ensures Without(s, s[i]) == s[..i] + s[i + 1..]
  {
    if i == 0 {
      WithoutAbsent(s[1..], s[0]);
      assert s[..0] + s[1..] == s[1..];
    } else {
      WithoutKeepsOrder(s[1..], i - 1);
      assert s[1..][..i - 1] + s[1..][i..] == s[1..i] + s[i + 1..];
      assert s[..i] == [s[0]] + s[1..i];
    }
  }

  lemma {:induction false} WithoutAbsent(s: seq<Category>, c: Category)
    requires c !in s
    ensures Without(s, c) == s
  {
    if |s| > 0 {
      WithoutAbsent(s[1..], c);
      assert s == [s[0]] + s[1..];
    }
  }

  /** What a tap does, stated through positions: a selected category is cut out of its place
      unless it is the only one; an unselected one goes to the end. */
  lemma ToggleEffect(selected: seq<Category>, c: Category)
    requires NoDuplicates(selected)
    ensures c in selected && |selected| == 1 ==> Toggle(selected, c).None?
    ensures c in selected && |selected| > 1 ==>
      exists i :: 0 <= i < |selected| && selected[i] == c
        && Toggle(selected, c) == Some(selected[..i] + selected[i + 1..])
    ensures c !in selected ==> Toggle(selected, c) == Some(selected + [c])
  {
    if c in selected && |selected| > 1 {
      var i :| 0 <= i < |selected| && selected[i] == c;
      WithoutKeepsOrder(selected, i);
    }
  }

  /** Toggling keeps the selection free of repeats and never empties a non-empty one. */
  lemma ToggleKeepsSelectionValid(selected: seq<Category>, c: Category)
    requires NoDuplicates(selected) && |selected| > 0
    ensures Toggle(selected, c).Some? ==> NoDuplicates(Toggle(selected, c).value)
    ensures Toggle(selected, c).Some? ==> |Toggle(selected, c).value| > 0
  {
    if c in selected && |selected| > 1 {
      var i :| 0 <= i < |selected| && selected[i] == c;
      WithoutKeepsOrder(selected, i);
      var r := selected[..i] + selected[i + 1..];
      forall a, b | 0 <= a < b < |r| ensures r[a] != r[b] {
        var a' := if a < i then a else a + 1;
        var b' := if b < i then b else b + 1;
        assert r[a] == selected[a'] && r[b] == selected[b'];
      }
    }
  }

  /** Toggling the same category twice, starting unselected, gives a non-empty selection back; from
      an empty selection the second tap is refused, as it would remove the last category. */
  lemma ToggleTwiceRestores(selected: seq<Category>, c: Category)
    requires NoDuplicates(selected) && c !in selected
    ensures Toggle(selected, c) == Some(selected + [c])
    ensures |selected| > 0 ==> Toggle(selected + [c], c) == Some(selected)
    ensures |selected| == 0 ==> Toggle(selected + [c], c).None?
  {
    var s := selected + [c];
    assert s[|selected|] == c;
    WithoutKeepsOrder(s, |selected|) by {
      forall i, j | 0 <= i < j < |s| ensures s[i] != s[j] {
        if j == |selected| {
          assert s[i] in selected;
        }
      }
    }
    assert s[..|selected|] + s[|selected| + 1..] == selected;
    assert c in s && |s| == |selected| + 1;
  }

  /** The only-one guard counts positions, not categories: a selection holding one category twice
      (which tapping alone never produces) can be emptied. */
  lemma RepeatedCategoryCanEmpty()
    ensures Toggle([Duell, Duell], Duell) == Some([])
  {
    assert Without([Duell, Duell], Duell) == [];
  }
}
