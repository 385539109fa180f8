// frontend/screens/Leaderboard.tsx: a mock league of five rivals whose scores
// follow the player's XP, plus the player, sorted by XP from the highest. The
// sort is JavaScript's stable `Array.prototype.sort`, modelled as a stable
// insertion sort.

module Leaderboard {

  datatype Entry = Entry(id: int, name: string, xp: int, isUser: bool)

  function Max(a: int, b: int): int {
    if a >= b then a else b
  }

  /** The five rivals, in declaration order. */
  function Rivals(userXP: int): seq<Entry> {
    [ Entry(1, "Ana Dev", Max(userXP + 450, 1000), false),
      Entry(2, "CodeMaster", Max(userXP + 200, 800), false),
      Entry(4, "Pythonista", Max(50, userXP - 150), false),
      Entry(5, "JavaJoe", Max(20, userXP - 300), false),
      Entry(6, "Newbie", Max(0, userXP - 500), false) ]
  }

  function You(userXP: int): Entry {
    Entry(3, "You", userXP, true)
  }

  /** Non-increasing XP. */
  predicate SortedDesc(s: seq<Entry>) {
    forall i, j :: 0 <= i < j < |s| ==> s[i].xp >= s[j].xp
  }

  /** `x` placed after every entry with at least its XP, as a stable sort places a later element. */
  function Insert(x: Entry, s: seq<Entry>): seq<Entry>
    decreases |s|
  {
    if s == [] then [x]
    else if s[0].xp >= x.xp then [s[0]] + Insert(x, s[1..])
    else [x] + s
  }

  /** `sort((a, b) => b.xp - a.xp)`. */
  function SortByXp(s: seq<Entry>): seq<Entry>
    decreases |s|
  {
    if s == [] then [] else Insert(s[|s| - 1], SortByXp(s[..|s| - 1]))
  }

  /** The board: the rivals and the player, sorted. */
  function Board(userXP: int): seq<Entry> {
    SortByXp(Rivals(userXP) + [You(userXP)])
  }

  /** An entry with at least the XP of a sorted list's head goes in front. */
  lemma ConsSorted(a: Entry, r: seq<Entry>)
    requires SortedDesc(r)
    requires r != [] ==> a.xp >= r[0].xp
    ensures SortedDesc([a] + r)
  {
    var u := [a] + r;
    forall i, j | 0 <= i < j < |u| ensures u[i].xp >= u[j].xp {
      assert u[j] == r[j - 1];
      if i > 0 {
        assert u[i] == r[i - 1];
      } else if j > 1 {
        assert r[0].xp >= r[j - 1].xp;
      }
    }
  }

  /** The inserted list starts with `x` or with the old head. */
  lemma InsertHead(x: Entry, s: seq<Entry>)
    ensures Insert(x, s) != []
    ensures Insert(x, s)[0] == x || (s != [] && Insert(x, s)[0] == s[0])
  {
  }

  /** Inserting into a sorted list keeps it sorted. */
  lemma {:induction false} InsertSorted(x: Entry, s: seq<Entry>)
    decreases |s|
    requires SortedDesc(s)
    ensures SortedDesc(Insert(x, s))
  {
    if s == [] {
    } else if s[0].xp >= x.xp {
      var tail := s[1..];
      assert SortedDesc(tail) by {
        forall i, j | 0 <= i < j < |tail| ensures tail[i].xp >= tail[j].xp {
          assert tail[i] == s[i + 1] && tail[j] == s[j + 1];
        }
      }
      InsertSorted(x, tail);
      InsertHead(x, tail);
      if tail != [] {
        assert s[0].xp >= s[1].xp;
      }
      ConsSorted(s[0], Insert(x, tail));
    } else {
      ConsSorted(x, s);
    }
  }

  /** Inserting adds `x` and keeps every other entry. */
  lemma {:induction false} InsertPermutes(x: Entry, s: seq<Entry>)
    decreases |s|
    ensures multiset(Insert(x, s)) == multiset(s) + multiset{x}
  {
    if s != [] && s[0].xp >= x.xp {
      InsertPermutes(x, s[1..]);
      assert s == [s[0]] + s[1..];
    }
  }

  /** The sort orders by XP from the highest and keeps every entry. */
  lemma {:induction false} SortByXpSpec(s: seq<Entry>)
    decreases |s|
    ensures SortedDesc(SortByXp(s))
    ensures multiset(SortByXp(s)) == multiset(s)
  {
    if s != [] {
      var init := s[..|s| - 1];
      SortByXpSpec(init);
      InsertSorted(s[|s| - 1], SortByXp(init));
      InsertPermutes(s[|s| - 1], SortByXp(init));
      assert s == init + [s[|s| - 1]];
    }
  }

  /** Inserting below every entry appends. */
  lemma {:induction false} InsertLast(x: Entry, s: seq<Entry>)
    decreases |s|
    requires forall i :: 0 <= i < |s| ==> s[i].xp > x.xp
    ensures Insert(x, s) == s + [x]
  {
    if s != [] {
      InsertLast(x, s[1..]);
      assert s == [s[0]] + s[1..];
    }
  }

  /** The rivals are declared from the highest score to the lowest, all distinct. */
  lemma RivalsStrictlyDescending(userXP: int)
    ensures forall i, j :: 0 <= i < j < 5 ==> Rivals(userXP)[i].xp > Rivals(userXP)[j].xp
  {
  }

  /** So sorting leaves the rivals as declared. */
  lemma RivalsSorted(userXP: int)
    ensures SortByXp(Rivals(userXP)) == Rivals(userXP)
  {
    var r := Rivals(userXP);
    RivalsStrictlyDescending(userXP);
    for k := 0 to 5
      invariant SortByXp(r[..k]) == r[..k]
    {
      assert r[..k + 1][..k] == r[..k];
      InsertLast(r[k], r[..k]);
      assert r[..k] + [r[k]] == r[..k + 1];
    }
    assert r[..5] == r;
  }

  /** The number of rivals with at least the player's XP: those the player ranks below. */
  function Ahead(userXP: int): nat {
    2 + (if userXP <= 50 then 1 else 0) + (if userXP <= 20 then 1 else 0) + (if userXP <= 0 then 1 else 0)
  }

  /** `Ahead` counts exactly the rivals with at least the player's XP: they all
      come first in the declared order. */
  lemma AheadSplitsRivals(userXP: int)
    ensures Ahead(userXP) <= 5
    ensures forall i :: 0 <= i < Ahead(userXP) ==> Rivals(userXP)[i].xp >= userXP
    ensures forall i :: Ahead(userXP) <= i < 5 ==> Rivals(userXP)[i].xp < userXP
  {
  }

  /** Inserting into a descending list puts `x` right after the entries with at least its XP. */
  lemma {:induction false} InsertAt(x: Entry, s: seq<Entry>, k: nat)
    decreases |s|
    requires k <= |s|
    requires forall i :: 0 <= i < k ==> s[i].xp >= x.xp
    requires forall i :: k <= i < |s| ==> s[i].xp < x.xp
    ensures Insert(x, s) == s[..k] + [x] + s[k..]
  {
    if s != [] {
      if k > 0 {
        InsertAt(x, s[1..], k - 1);
        assert s[..k] == [s[0]] + s[1..][..k - 1];
        assert s[k..] == s[1..][k - 1..];
      }
    }
  }

  /** The rivals are in order and the player goes right after those with at
      least the player's XP. */
  lemma BoardLayout(userXP: int)
    ensures Board(userXP) == Rivals(userXP)[..Ahead(userXP)] + [You(userXP)] + Rivals(userXP)[Ahead(userXP)..]
  {
    var r := Rivals(userXP);
    var you := You(userXP);
    var input := r + [you];
    assert input[..5] == r && input[5] == you;
    RivalsSorted(userXP);
    assert SortByXp(input) == Insert(you, r);
    AheadSplitsRivals(userXP);
    InsertAt(you, r, Ahead(userXP));
  }

  /** The board is sorted from the highest XP and holds exactly the rivals and
      the player. */
  lemma BoardSorted(userXP: int)
    ensures SortedDesc(Board(userXP))
    ensures multiset(Board(userXP)) == multiset(Rivals(userXP)) + multiset{You(userXP)}
  {
    SortByXpSpec(Rivals(userXP) + [You(userXP)]);
  }

  /** The board has six entries and flags only the player, who sits at index
      `Ahead`, never first or second, so the displayed rank `index + 1` is 3 to 6,
      and 3 whenever the player has more than 50 XP. */
  lemma BoardSpec(userXP: int)
    ensures var b := Board(userXP);
      && |b| == 6
      && b[Ahead(userXP)] == You(userXP)
      && (forall i :: 0 <= i < 6 && i != Ahead(userXP) ==> !b[i].isUser)
      && 2 <= Ahead(userXP) <= 5
      && (userXP > 50 ==> Ahead(userXP) == 2)
  {
    var r := Rivals(userXP);
    var k := Ahead(userXP);
    BoardLayout(userXP);
    var b := Board(userXP);
    forall i | 0 <= i < 6 && i != k ensures !b[i].isUser {
      if i < k {
        assert b[i] == r[i];
      } else {
        assert b[i] == r[i - 1];
      }
    }
  }
}
