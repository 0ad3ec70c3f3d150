/**
 * The order in which JavaScript lists the own string keys of an ordinary object
 * (`Object.keys`, `Object.values`, `Object.entries`): first the keys that are array
 * indices, in ascending numeric order, then every other key in the order it was
 * created (OrdinaryOwnPropertyKeys, section 10.1.11.1 of ECMA-262).
 */
module ObjectKeys {
  import opened Seqs

  /** 2^32 - 1: every array index lies below it, and every other key ranks at it. */
  const IndexBound: int := 0xFFFF_FFFF

  predicate AllDigits(k: string) {
    forall i :: 0 <= i < |k| ==> '0' <= k[i] <= '9'
  }

  /** The value of a decimal numeral. */
  function DecimalValue(k: string): nat
    requires AllDigits(k)
    decreases |k|
  {
    if k == [] then 0 else DecimalValue(k[..|k| - 1]) * 10 + (k[|k| - 1] as int - '0' as int)
  }

  /** An array index: a numeral without leading zero ("0" itself aside) whose value is below 2^32 - 1. */
  predicate IsArrayIndex(k: string) {
    && |k| > 0 && AllDigits(k) && (k[0] != '0' || |k| == 1)
    && DecimalValue(k) < IndexBound
  }

  /** Where a key goes in the listing: its index, or past every index. */
  function KeyRank(k: string): int {
    if IsArrayIndex(k) then DecimalValue(k) else IndexBound
  }

  function RankBy<T>(keyOf: T -> string): T -> int {
    (x: T) => KeyRank(keyOf(x))
  }

  function NotIndexKey<T>(keyOf: T -> string): T -> bool {
    (x: T) => !IsArrayIndex(keyOf(x))
  }

  /**
   * The listing of an object whose properties were created in the order of `s`,
   * `keyOf` giving each one's key: a stable sort by rank.
   */
  function PropertyOrder<T>(s: seq<T>, keyOf: T -> string): (r: seq<T>)
    ensures |r| == |s|
  {
    SortBy(s, RankBy(keyOf))
  }

  /**
   * The listing holds the same properties; array-index keys come before all others
   * and in ascending numeric order; the other keys keep their creation order.
   */
  lemma PropertyOrderSpec<T(!new)>(s: seq<T>, keyOf: T -> string)
    ensures var r := PropertyOrder(s, keyOf);
      && multiset(r) == multiset(s)
      && (forall i, j :: 0 <= i < j < |r| && IsArrayIndex(keyOf(r[j])) ==> IsArrayIndex(keyOf(r[i])))
      && (forall i, j :: 0 <= i < j < |r| && IsArrayIndex(keyOf(r[i])) && IsArrayIndex(keyOf(r[j])) ==>
            DecimalValue(keyOf(r[i])) <= DecimalValue(keyOf(r[j])))
      && Filter(r, NotIndexKey(keyOf)) == Filter(s, NotIndexKey(keyOf))
  {
    var r := PropertyOrder(s, keyOf);
    var rank := RankBy(keyOf);
    SortByPermutes(s, rank);
    SortBySorted(s, rank);
    forall i, j | 0 <= i < j < |r| && IsArrayIndex(keyOf(r[j]))
      ensures IsArrayIndex(keyOf(r[i]))
    {
      assert rank(r[i]) <= rank(r[j]);
    }
    SortByStable(s, rank, IndexBound);
    FilterAgree(r, NotIndexKey(keyOf), KeyIs(rank, IndexBound));
    FilterAgree(s, NotIndexKey(keyOf), KeyIs(rank, IndexBound));
  }

  function Itself(k: string): string {
    k
  }

  lemma ExampleNumerals()
    ensures DecimalValue("10") == 10 && DecimalValue("6") == 6 && DecimalValue("3") == 3
  {
    assert "10"[..1] == "1" && "1"[..0] == "";
    assert "6"[..0] == "" && "3"[..0] == "";
  }

  lemma SmallIndexRanks()
    ensures KeyRank("10") == 10 && KeyRank("6") == 6 && KeyRank("3") == 3
  {
    ExampleNumerals();
    assert IsArrayIndex("10") && IsArrayIndex("6") && IsArrayIndex("3");
  }

  lemma ExampleRanks()
    ensures var rank := RankBy(Itself);
      rank("10") == 10 && rank("6") == 6 && rank("3") == 3 && rank("u1") == IndexBound
  {
    SmallIndexRanks();
    assert !IsArrayIndex("u1") by { assert "u1"[0] == 'u'; assert !AllDigits("u1"); }
    assert KeyRank("10") == 10 && KeyRank("6") == 6 && KeyRank("3") == 3 && KeyRank("u1") == IndexBound;
    var rank := RankBy(Itself);
    assert rank("10") == KeyRank(Itself("10"));
    assert rank("6") == KeyRank(Itself("6"));
    assert rank("3") == KeyRank(Itself("3"));
    assert rank("u1") == KeyRank(Itself("u1"));
  }

  /** Keys created as "6", "u1", "10", "3" are listed as "3", "6", "10", "u1". */
  lemma IndicesListedFirst()
    ensures PropertyOrder(["6", "u1", "10", "3"], Itself) == ["3", "6", "10", "u1"]
  {
    var rank := RankBy(Itself);
    ExampleRanks();
    var k := ["6", "u1", "10", "3"];
    assert k[..3][..2] == ["6", "u1"] && k[..3] == ["6", "u1", "10"];
    assert SortBy(["6", "u1"], rank) == ["6", "u1"] by {
      assert ["6", "u1"][..1] == ["6"];
      assert ["6"][..0] == [];
    }
    var three := ["6", "10", "u1"];
    assert SortBy(k[..3], rank) == three by {
      assert InsertLast(["6"], "10", rank) == ["6", "10"];
      assert ["6", "u1"][..1] == ["6"];
    }
    assert InsertLast(three, "3", rank) == ["3", "6", "10", "u1"] by {
      assert three[..2] == ["6", "10"] && three[..2][..1] == ["6"] && ["6"][..0] == [];
      assert InsertLast([], "3", rank) == ["3"];
    }
  }
}
