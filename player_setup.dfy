/** Player entry on the setup screen: a name is trimmed and upper-cased and added at the end of the
    list (at most ten players); tapping a player removes every player with that id. */
module PlayerSetup {
  import opened Types

  const MaxPlayers: nat := 10
  const MinPlayers: nat := 2

  /** The ten avatar choices, in display order. */
  const AvatarOptions: seq<string> := [
    "\U{1F37A}", "\U{1F37B}", "\U{1F377}", "\U{1F942}", "\U{1F37E}",
    "\U{1F379}", "\U{1F921}", "\U{1F608}", "\U{1F973}", "\U{1F60E}"]

  // ---------------------------------------------------------------------------------------------
  // String.prototype.trim

  /** The suffix left after dropping leading white space. */
  function TrimStart(s: string): (r: string)
    ensures |r| <= |s| && r == s[|s| - |r|..]
    ensures |r| > 0 ==> !IsJsWhiteSpace(r[0])
    ensures forall k :: 0 <= k < |s| - |r| ==> IsJsWhiteSpace(s[k])
  {
    if |s| > 0 && IsJsWhiteSpace(s[0]) then TrimStart(s[1..]) else s
  }

  /** The prefix left after dropping trailing white space. */
  function TrimEnd(s: string): (r: string)
    ensures |r| <= |s| && r == s[..|r|]
    ensures |r| > 0 ==> !IsJsWhiteSpace(r[|r| - 1])
    ensures forall k :: |r| <= k < |s| ==> IsJsWhiteSpace(s[k])
  {
    if |s| > 0 && IsJsWhiteSpace(s[|s| - 1]) then TrimEnd(s[..|s| - 1]) else s
  }

  function Trim(s: string): string {
    TrimEnd(TrimStart(s))
  }

  /** Everything outside `s[i..j]` is white space. */
  predicate BlankOutside(s: string, i: int, j: int) {
    && 0 <= i <= j <= |s|
    && (forall k :: 0 <= k < i ==> IsJsWhiteSpace(s[k]))
    && (forall k :: j <= k < |s| ==> IsJsWhiteSpace(s[k]))
  }

  /** Trimming cuts a contiguous middle out of the name, starting and ending on a non-blank
      character, and drops only white space. */
  lemma TrimShape(s: string)
    ensures exists i, j :: BlankOutside(s, i, j) && Trim(s) == s[i..j]
    ensures |Trim(s)| > 0 ==> !IsJsWhiteSpace(Trim(s)[0]) && !IsJsWhiteSpace(Trim(s)[|Trim(s)| - 1])
  {
    var t := TrimStart(s);
    var e := TrimEnd(t);
    var i := |s| - |t|;
    CutOfCut(s, t, e, i);
    assert BlankOutside(s, i, i + |e|) && Trim(s) == s[i..i + |e|];
  }

  /** A prefix `e` of the suffix `t` of `s` is a slice of `s`; blanks after `e` in `t` are blanks
      of `s`. */
  lemma CutOfCut(s: string, t: string, e: string, i: int)
    requires 0 <= i <= |s| && t == s[i..] && |e| <= |t| && e == t[..|e|]
    requires forall k :: 0 <= k < i ==> IsJsWhiteSpace(s[k])
    requires forall k :: |e| <= k < |t| ==> IsJsWhiteSpace(t[k])
    ensures e == s[i..i + |e|]
    ensures BlankOutside(s, i, i + |e|)
  {
    forall k | i + |e| <= k < |s| ensures IsJsWhiteSpace(s[k]) {
      assert t[k - i] == s[k];
    }
  }

  /** A name is blank after trimming exactly when it consists of white space only. */
  lemma TrimEmptyIffBlank(s: string)
    ensures Trim(s) == [] <==> forall k :: 0 <= k < |s| ==> IsJsWhiteSpace(s[k])
  {
    var t := TrimStart(s);
    if t != [] {
      assert s[|s| - |t|] == t[0] && !IsJsWhiteSpace(t[0]);
      assert |TrimEnd(t)| > 0;
    }
  }

  lemma TrimIdempotent(s: string)
    ensures Trim(Trim(s)) == Trim(s)
  {
    var r := Trim(s);
    if |r| > 0 {
      assert TrimStart(r) == r;
      assert TrimEnd(r) == r;
    }
  }

  // ---------------------------------------------------------------------------------------------
  // String.prototype.toUpperCase, over ASCII and Latin-1

  /** The upper-case form of one character: ASCII and Latin-1 letters map to their capitals, ß to
      "SS", ÿ to Ÿ and µ to Greek capital mu; every other character is kept. */
  function UpperChar(ch: char): (r: string)
    ensures 1 <= |r| <= 2
  {
    if 'a' <= ch <= 'z' then [(ch as int - 32) as char]
    else if '\U{00E0}' <= ch <= '\U{00FE}' && ch != '\U{00F7}' then [(ch as int - 32) as char]
    else if ch == '\U{00DF}' then "SS"
    else if ch == '\U{00FF}' then ['\U{0178}']
    else if ch == '\U{00B5}' then ['\U{039C}']
    else [ch]
  }

  function UpperCase(s: string): (r: string)
    ensures |s| <= |r| <= 2 * |s|
  {
    if |s| == 0 then [] else UpperChar(s[0]) + UpperCase(s[1..])
  }

  predicate IsLowerAscii(ch: char) {
    'a' <= ch <= 'z'
  }

  lemma {:induction false} UpperCaseAppend(a: string, b: string)
    ensures UpperCase(a + b) == UpperCase(a) + UpperCase(b)
  {
    if |a| > 0 {
      assert (a + b)[0] == a[0];
      assert (a + b)[1..] == a[1..] + b;
      UpperCaseAppend(a[1..], b);
      assert UpperCase(a + b) == UpperChar(a[0]) + UpperCase(a[1..] + b);
      assert UpperCase(a) == UpperChar(a[0]) + UpperCase(a[1..]);
    } else {
      assert a + b == b;
    }
  }

  lemma UpperCharFixed(ch: char)
    ensures forall k :: 0 <= k < |UpperChar(ch)| ==> UpperChar(UpperChar(ch)[k]) == [UpperChar(ch)[k]]
    ensures forall k :: 0 <= k < |UpperChar(ch)| ==> !IsLowerAscii(UpperChar(ch)[k])
  {
  }

  /** Upper-casing leaves no lower-case ASCII letter behind and is idempotent. */
  lemma {:induction false} UpperCaseIdempotent(s: string)
    ensures UpperCase(UpperCase(s)) == UpperCase(s)
    ensures forall k :: 0 <= k < |UpperCase(s)| ==> !IsLowerAscii(UpperCase(s)[k])
  {
    UpperCaseNoLower(s);
    if |s| > 0 {
      var h := UpperChar(s[0]);
      UpperCaseIdempotent(s[1..]);
      UpperCaseAppend(h, UpperCase(s[1..]));
      UpperCharStable(s[0]);
    }
  }

  /** The upper-case form of one character is already upper case. */
  lemma UpperCharStable(ch: char)
    ensures UpperCase(UpperChar(ch)) == UpperChar(ch)
  {
    var h := UpperChar(ch);
    UpperCharFixed(ch);
    assert UpperCase(h) == UpperChar(h[0]) + UpperCase(h[1..]);
    if |h| == 2 {
      assert UpperCase(h[1..]) == UpperChar(h[1]) + UpperCase(h[2..]);
    }
  }

  lemma {:induction false} UpperCaseNoLower(s: string)
    ensures forall k :: 0 <= k < |UpperCase(s)| ==> !IsLowerAscii(UpperCase(s)[k])
  {
    if |s| > 0 {
      var h := UpperChar(s[0]);
      var t := UpperCase(s[1..]);
      UpperCharFixed(s[0]);
      UpperCaseNoLower(s[1..]);
      assert UpperCase(s) == h + t;
      forall k | 0 <= k < |h + t| ensures !IsLowerAscii((h + t)[k]) {
        if k >= |h| {
          assert (h + t)[k] == t[k - |h|];
        }
      }
    }
  }

  // ---------------------------------------------------------------------------------------------
  // Ids: Date.now().toString()

  function DigitChar(d: int): (c: char)
    requires 0 <= d < 10
    ensures '0' <= c <= '9'
  {
    "0123456789"[d]
  }

  /** The decimal notation of a non-negative clock value. */
  function NatToString(n: nat): (r: string)
    ensures |r| > 0
    ensures forall k :: 0 <= k < |r| ==> '0' <= r[k] <= '9'
  {
    if n < 10 then [DigitChar(n)] else NatToString(n / 10) + [DigitChar(n % 10)]
  }

  function DigitsValue(s: string): int
    requires forall k :: 0 <= k < |s| ==> '0' <= s[k] <= '9'
  {
    if |s| == 0 then 0 else 10 * DigitsValue(s[..|s| - 1]) + (s[|s| - 1] as int - '0' as int)
  }

  /** The notation reads back as the number, so different clock values give different ids. */
  lemma {:induction false} NatToStringReadsBack(n: nat)
    ensures DigitsValue(NatToString(n)) == n
  {
    var r := NatToString(n);
    if n >= 10 {
      NatToStringReadsBack(n / 10);
      assert r[..|r| - 1] == NatToString(n / 10);
    }
  }

  lemma IdsDistinct(n: nat, m: nat)
    requires n != m
    ensures NatToString(n) != NatToString(m)
  {
    NatToStringReadsBack(n);
    NatToStringReadsBack(m);
  }

  // ---------------------------------------------------------------------------------------------
  // addPlayer / removePlayer

  /** addPlayer at clock `now` with the entered name and the selected avatar: the new list handed to
      the callback, or None when nothing is added. */
  function AddPlayer(players: seq<Player>, name: string, avatar: string, now: nat): (r: Option<seq<Player>>)
    ensures r.None? <==> Trim(name) == [] || |players| >= MaxPlayers
  {
    if Trim(name) == [] then None
    else if |players| >= MaxPlayers then None
    else Some(players + [Player(NatToString(now), UpperCase(Trim(name)), avatar, 0)])
  }

  /** What an added player looks like: the earlier players untouched, the new one last, named by
      the non-blank trimmed name in capitals, with the chosen avatar and no drinks. */
  lemma AddPlayerAppends(players: seq<Player>, name: string, avatar: string, now: nat)
    requires AddPlayer(players, name, avatar, now).Some?
    ensures var r := AddPlayer(players, name, avatar, now).value;
      |r| == |players| + 1 <= MaxPlayers && r[..|players|] == players
      && var p := r[|players|];
      p.id == NatToString(now) && p.avatar == avatar && p.totalDrinks == 0
      && |p.name| >= |Trim(name)| > 0
      && p.name == UpperCase(Trim(name))
      && forall k :: 0 <= k < |p.name| ==> !IsLowerAscii(p.name[k])
  {
    UpperCaseIdempotent(Trim(name));
    var r := AddPlayer(players, name, avatar, now).value;
    assert r[..|players|] == players;
  }

  /** Adding never takes a list beyond ten players. */
  lemma AddPlayerCapped(players: seq<Player>, name: string, avatar: string, now: nat)
    requires |players| <= MaxPlayers
    ensures AddPlayer(players, name, avatar, now).Some? ==> |AddPlayer(players, name, avatar, now).value| <= MaxPlayers
    ensures |players| == MaxPlayers ==> AddPlayer(players, name, avatar, now).None?
  {
  }

  /** Surrounding blanks and letter case in the typed name make no difference. */
  lemma AddPlayerNormalises(players: seq<Player>, name: string, avatar: string, now: nat)
    ensures AddPlayer(players, Trim(name), avatar, now) == AddPlayer(players, name, avatar, now)
  {
    TrimIdempotent(name);
  }

  /** removePlayer: `filter(p => p.id !== playerId)`. */
  function RemovePlayer(players: seq<Player>, id: string): (r: seq<Player>)
    ensures |r| <= |players|
    ensures forall k :: 0 <= k < |r| ==> r[k].id != id
    ensures forall p :: p in players && p.id != id ==> p in r
    ensures forall p :: p in r ==> p in players
  {
    if |players| == 0 then []
    else if players[|players| - 1].id == id then RemovePlayer(players[..|players| - 1], id)
    else RemovePlayer(players[..|players| - 1], id) + [players[|players| - 1]]
  }

  /** Removal works list segment by list segment, so the remaining players keep their order. */
  lemma {:induction false} RemovePlayerAppend(a: seq<Player>, b: seq<Player>, id: string)
    ensures RemovePlayer(a + b, id) == RemovePlayer(a, id) + RemovePlayer(b, id)
    decreases |b|
  {
    if |b| > 0 {
      assert (a + b)[..|a + b| - 1] == a + b[..|b| - 1];
      assert (a + b)[|a + b| - 1] == b[|b| - 1];
      RemovePlayerAppend(a, b[..|b| - 1], id);
      if b[|b| - 1].id == id {
        assert RemovePlayer(a + b, id) == RemovePlayer(a + b[..|b| - 1], id);
      } else {
        assert RemovePlayer(a + b, id) == RemovePlayer(a + b[..|b| - 1], id) + [b[|b| - 1]];
      }
    } else {
      assert a + b == a;
    }
  }

  /** Removing an id nobody has changes nothing. */
  lemma {:induction false} RemoveAbsentId(players: seq<Player>, id: string)
    requires forall k :: 0 <= k < |players| ==> players[k].id != id
    ensures RemovePlayer(players, id) == players
  {
    if |players| > 0 {
      RemoveAbsentId(players[..|players| - 1], id);
    }
  }

  /** Removing a player just added under a fresh id gives the old list back. */
  lemma RemoveUndoesAdd(players: seq<Player>, name: string, avatar: string, now: nat)
    requires AddPlayer(players, name, avatar, now).Some?
    requires forall k :: 0 <= k < |players| ==> players[k].id != NatToString(now)
    ensures RemovePlayer(AddPlayer(players, name, avatar, now).value, NatToString(now)) == players
  {
    RemoveAbsentId(players, NatToString(now));
  }

  /** The warning under the list. */
  predicate ShowMinimumWarning(players: seq<Player>) {
    |players| < MinPlayers
  }

  /** The avatar preselected after an add, from a random number in [0, 1). */
  function NextAvatar(random: real): (a: string)
    requires 0.0 <= random < 1.0
    ensures a in AvatarOptions
  {
    var k := (random * |AvatarOptions| as real).Floor;
    assert 0 <= k < |AvatarOptions| by {
      assert 0.0 <= random * 10.0 < 10.0;
    }
    AvatarOptions[k]
  }
}
