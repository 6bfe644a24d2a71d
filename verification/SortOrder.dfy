/** The order of the sort over the bytes of records (cpm/sort/sort.asm, cmprec): what "sorted by these fields" means
    to whoever wrote the SORT FIELDS card. */
module SortOrder {
  import opened Sort

  /** The character in a column, columns counted from 1: the record's own, or a space past its end. */
  function Column(r: Rec, column: int): int {
    var c := (column - 1) % 0x1_0000;
    if 0 <= c < |r| then r[c] else 0x20
  }

  /** What a field compares of it: with CI, a to z count as A to Z; every other byte counts as itself. */
  function Sees(k: Key, b: int): int { if k.fold && 'a' as int <= b <= 'z' as int then b - ('a' as int - 'A' as int)
                else b }

  /** Character `i` of a field. */
  function Char(k: Key, r: Rec, i: int): int { Sees(k, Column(r, k.pos + i)) }

  /** Field (j, i) comes before field and character (k, n). */
  predicate Sooner(j: int, i: int, k: int, n: int) { j < k || (j == k && i < n) }

  /** The characters `i` of field `j` differ, the right way round for `a` to come first. */
  predicate Decides(keys: seq<Key>, a: Rec, b: Rec, j: int, i: int) {
    && 0 <= j < |keys| && 0 <= i < keys[j].len
    && if keys[j].desc then Char(keys[j], a, i) > Char(keys[j], b, i) else Char(keys[j], a, i) < Char(keys[j], b, i)
  }

  /** All fields tie up to character `i` of field `j`. */
  ghost predicate TiesUpTo(keys: seq<Key>, a: Rec, b: Rec, j: int, i: int) {
    forall k, n {:trigger Char(keys[k], a, n)} ::
      0 <= k < |keys| && 0 <= n < keys[k].len && Sooner(k, n, j, i) ==> Char(keys[k], a, n) == Char(keys[k], b, n)
  }

  /** `a` sorts before `b`: at the first character that differs it is the smaller one, or the greater one if the field
      is descending. */
  ghost predicate Precedes(keys: seq<Key>, a: Rec, b: Rec) {
    exists j, i :: Decides(keys, a, b, j, i) && TiesUpTo(keys, a, b, j, i)
  }

  ghost predicate Ties(keys: seq<Key>, a: Rec, b: Rec) {
    forall k, n {:trigger Char(keys[k], a, n)} :: 0 <= k < |keys| && 0 <= n < keys[k].len ==>
        Char(keys[k], a, n) == Char(keys[k], b, n)
  }

  /** The comparison's own byte, seen from outside. */
  lemma RankIs(k: Key, a: Rec, b: Rec, i: nat)
    ensures Rank(k, a, i) == Rank(k, b, i) <==> Char(k, a, i) == Char(k, b, i)
    ensures Rank(k, a, i) < Rank(k, b, i) <==> if k.desc then Char(k, a, i) > Char(k, b, i)
            else Char(k, a, i) < Char(k, b, i)
  {
    assert k.pos - 1 + i == (k.pos + i) - 1;
  }

  lemma {:induction false} CompareFromIs(keys: seq<Key>, a: Rec, b: Rec, j: nat, i: nat)
    requires j <= |keys| && (j < |keys| ==> i <= keys[j].len) && TiesUpTo(keys, a, b, j, i)
    ensures CompareFrom(keys, a, b, j, i) < 0 <==> Precedes(keys, a, b)
    ensures CompareFrom(keys, a, b, j, i) == 0 <==> Ties(keys, a, b)
    decreases |keys| - j, if j < |keys| then keys[j].len - i else 0
  {
    hide Rank, Char;
    if j == |keys| {
      NoDecision(keys, a, b);
    } else if i == keys[j].len {
      CompareFromIs(keys, a, b, j + 1, 0);
    } else {
      RankIs(keys[j], a, b, i);
      if Rank(keys[j], a, i) < Rank(keys[j], b, i) {
        assert Decides(keys, a, b, j, i);
      } else if Rank(keys[j], a, i) > Rank(keys[j], b, i) {
        RankIs(keys[j], b, a, i);
        FirstDecides(keys, a, b, j, i);
      } else {
        CompareFromIs(keys, a, b, j, i + 1);
      }
    }
  }

  lemma NoDecision(keys: seq<Key>, a: Rec, b: Rec)
    requires TiesUpTo(keys, a, b, |keys|, 0)
    ensures !Precedes(keys, a, b) && Ties(keys, a, b)
  {
    hide Char;
  }

  /** The first difference is the only one that can decide. */
  lemma FirstDecides(keys: seq<Key>, a: Rec, b: Rec, j: nat, i: nat)
    requires Decides(keys, b, a, j, i) && TiesUpTo(keys, a, b, j, i)
    ensures !Precedes(keys, a, b) && !Ties(keys, a, b)
  {
    hide Char;
  }

  /** cmprec decides exactly as the fields say. */
  lemma CompareIs(keys: seq<Key>, a: Rec, b: Rec)
    ensures Compare(keys, a, b) < 0 <==> Precedes(keys, a, b)
    ensures Compare(keys, a, b) == 0 <==> Ties(keys, a, b)
    ensures Compare(keys, a, b) > 0 <==> Precedes(keys, b, a)
  {
    hide CompareFrom, Char;
    assert TiesUpTo(keys, a, b, 0, 0) && TiesUpTo(keys, b, a, 0, 0);
    CompareFromIs(keys, a, b, 0, 0);
    CompareFromIs(keys, b, a, 0, 0);
    CompareFlips(keys, a, b, 0, 0);
  }

  /** Sorted by the fields, and records whose fields tie in the order they were read. */
  ghost predicate InOrder(keys: seq<Key>, s: seq<Item>) {
    forall i, j :: 0 <= i < j < |s| ==>
      Precedes(keys, s[i].rec, s[j].rec) || (Ties(keys, s[i].rec, s[j].rec) && s[i].at < s[j].at)
  }

  lemma OrderedIs(keys: seq<Key>, s: seq<Item>)
    ensures Ordered(keys, s) <==> InOrder(keys, s)
  {
    hide Compare, Precedes, Ties;
    forall i, j | 0 <= i < j < |s|
      ensures Before(keys, s[i], s[j]) <==>
              Precedes(keys, s[i].rec, s[j].rec) || (Ties(keys, s[i].rec, s[j].rec) && s[i].at < s[j].at)
    {
      CompareIs(keys, s[i].rec, s[j].rec);
    }
  }
}
