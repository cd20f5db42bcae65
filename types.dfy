/** Shared record types of the card game: cards, categories and players. */
module Types {

  /** The closed set of card categories. */
  datatype Category = Wahrheit | Aufgabe | Gruppe | Duell | Wildcard

  /** The five categories in the order the screens list them. */
  const AllCategories: seq<Category> := [Wahrheit, Aufgabe, Gruppe, Duell, Wildcard]

  /** An immutable catalog card; `text` plays no part in the game logic. */
  datatype Card = Card(id: int, category: Category, text: string, drinks: int)

  /** A participant; `totalDrinks` accumulates over a game. */
  datatype Player = Player(id: string, name: string, avatar: string, totalDrinks: int)

  datatype Option<T> = None | Some(value: T)

  predicate IsWildcard(c: Card) {
    c.category == Wildcard
  }

  /** The sum of the players' drink totals, folded from the left as `reduce` does. */
  function TotalDrinks(players: seq<Player>): int {
    if |players| == 0 then 0 else TotalDrinks(players[..|players| - 1]) + players[|players| - 1].totalDrinks
  }

  /** The total over a concatenation is the sum of the totals. */
  lemma {:induction false} TotalDrinksAppend(a: seq<Player>, b: seq<Player>)
    ensures TotalDrinks(a + b) == TotalDrinks(a) + TotalDrinks(b)
    decreases |b|
  {
    if |b| > 0 {
      assert (a + b)[..|a + b| - 1] == a + b[..|b| - 1];
      TotalDrinksAppend(a, b[..|b| - 1]);
    } else {
      assert a + b == a;
    }
  }

  /** Replacing one player changes the total by the difference of that player's totals. */
  lemma TotalDrinksUpdate(players: seq<Player>, i: int, p: Player)
    requires 0 <= i < |players|
    ensures TotalDrinks(players[i := p]) == TotalDrinks(players) - players[i].totalDrinks + p.totalDrinks
  {
    var s := players[i := p];
    var pre, post := players[..i], players[i + 1..];
    assert s[..i] == pre && s[i + 1..] == post;
    TotalDrinksRemove(players, i);
    TotalDrinksRemove(s, i);
  }

  /** Taking one player out of the list takes that player's total out of the sum. */
  lemma TotalDrinksRemove(b: seq<Player>, j: int)
    requires 0 <= j < |b|
    ensures TotalDrinks(b) == TotalDrinks(b[..j] + b[j + 1..]) + b[j].totalDrinks
  {
    var pre, post := b[..j], b[j + 1..];
    var mid := pre + [b[j]];
    SplitAround(b, j);
    TotalDrinksAppend(mid, post);
    TotalDrinksAppend(pre, [b[j]]);
    TotalDrinksAppend(pre, post);
    TotalDrinksSingle(b[j]);
  }

  lemma SplitAround(b: seq<Player>, j: int)
    requires 0 <= j < |b|
    ensures b == b[..j] + [b[j]] + b[j + 1..]
  {
  }

  /** A position at which a member of the list's multiset occurs. */
  lemma IndexIn(b: seq<Player>, x: Player) returns (j: int)
    requires x in multiset(b)
    ensures 0 <= j < |b| && b[j] == x
  {
    assert x in b;
    j :| 0 <= j < |b| && b[j] == x;
  }

  /** A list's multiset is that of all but its last player, plus the last. */
  lemma MultisetOfLast(s: seq<Player>)
    requires |s| > 0
    ensures multiset(s) == multiset(s[..|s| - 1]) + multiset{s[|s| - 1]}
  {
    assert s == s[..|s| - 1] + [s[|s| - 1]];
  }

  lemma TotalDrinksSingle(p: Player)
    ensures TotalDrinks([p]) == p.totalDrinks
  {
    assert [p][..0] == [];
  }

  lemma MultisetRemove(b: seq<Player>, j: int)
    requires 0 <= j < |b|
    ensures multiset(b[..j] + b[j + 1..]) == multiset(b) - multiset{b[j]}
  {
    assert b == b[..j] + [b[j]] + b[j + 1..];
  }

  /** The total depends only on which players there are, not on their order. */
  lemma {:induction false} TotalDrinksPermutation(a: seq<Player>, b: seq<Player>)
    requires multiset(a) == multiset(b)
    ensures TotalDrinks(a) == TotalDrinks(b)
    decreases |a|
  {
    if |a| == 0 {
      assert |b| == |multiset(b)| == 0;
    } else {
      var n := |a| - 1;
      var j := IndexIn(b, a[n]);
      var rest := b[..j] + b[j + 1..];
      MultisetRemove(b, j);
      MultisetOfLast(a);
      TotalDrinksPermutation(a[..n], rest);
      TotalDrinksRemove(b, j);
    }
  }

  /** The characters ECMAScript counts as white space or line terminators (the Zs category spelled
      out); `trim` and `parseFloat` both skip exactly these. */
  predicate IsJsWhiteSpace(ch: char) {
    ch == '\t' || ch == '\n' || ch == '\U{000B}' || ch == '\U{000C}' || ch == '\r' || ch == ' '
    || ch == '\U{00A0}' || ch == '\U{1680}' || ('\U{2000}' <= ch <= '\U{200A}')
    || ch == '\U{2028}' || ch == '\U{2029}' || ch == '\U{202F}' || ch == '\U{205F}'
    || ch == '\U{3000}' || ch == '\U{FEFF}'
  }
}
