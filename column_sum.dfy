/**
 * Column aggregation: `getColumnPositions(column)` and `sumColumn(column)`,
 * the map/filter/reduce pipelines over the model's keys that feed the
 * summation bar, with a key-by-key reference total they are proved against.
 */
module ColumnSum {
  import opened Wrappers
  import opened JsText
  import opened Model

  /** The `{col, row}` object built from the two texts a key's match captured. */
  datatype CellRef = CellRef(colText: string, rowText: string)

  /**
   * `key.match(/^(\d+):(\d+)/).slice(1)`: the digits at the start of the key,
   * a ':', and the digits after it; `None` where `match` returns null.
   */
  function MatchKey(key: string): (m: Option<CellRef>)
    ensures m.Some? ==> m.value.colText != [] && AllDigits(m.value.colText)
    ensures m.Some? ==> m.value.rowText != [] && AllDigits(m.value.rowText)
    ensures m.Some? ==> var id := CellId(m.value.colText, m.value.rowText);
      |id| <= |key| && key[..|id|] == id
  {
    var n := DigitRun(key);
    if n == 0 || n == |key| || key[n] != ':' then None
    else
      var rest := key[n + 1..];
      var k := DigitRun(rest);
      if k == 0 then None
      else
        assert key[..n + 1 + k] == key[..n] + ":" + rest[..k];
        Some(CellRef(key[..n], rest[..k]))
  }

  /**
   * The pattern is anchored at the start only, and each `\d+` takes the
   * longest run: digits, ':', digits, then anything not a digit, matches.
   */
  lemma MatchKeyOf(a: string, b: string, rest: string)
    requires a != [] && AllDigits(a) && b != [] && AllDigits(b)
    requires rest == [] || !IsDigit(rest[0])
    ensures MatchKey(CellId(a, b) + rest) == Some(CellRef(a, b))
  {
    var tail := b + rest;
    var key := a + ([':'] + tail);
    assert CellId(a, b) + rest == key;
    DigitRunOfDigitsThen(a, [':'] + tail);
    assert key[|a|] == ':';
    assert key[..|a|] == a;
    assert key[|a| + 1..] == tail;
    DigitRunOfDigitsThen(b, rest);
    assert tail[..|b|] == b;
  }

  /** The key the model writes for a cell with non-negative coordinates reads back as that cell. */
  lemma MatchKeyOfPositionId(p: Position)
    requires 0 <= p.col && 0 <= p.row
    ensures MatchKey(PositionId(p)) == Some(CellRef(IntText(p.col), IntText(p.row)))
    ensures ParseInt(IntText(p.col)) == Some(p.col)
  {
    MatchKeyOf(IntText(p.col), IntText(p.row), []);
    assert PositionId(p) + [] == PositionId(p);
    ParseIntOfIntTextAlone(p.col);
  }

  predicate AllKeysMatch(keys: seq<string>) {
    forall i :: 0 <= i < |keys| ==> MatchKey(keys[i]).Some?
  }

  /** `.map(position => position.match(...).slice(1))`; `None` is the TypeError of a key that does not match. */
  function MatchAll(keys: seq<string>): (r: Option<seq<CellRef>>)
    ensures r.Some? <==> AllKeysMatch(keys)
    ensures r.Some? ==> |r.value| == |keys|
    ensures r.Some? ==> forall i :: 0 <= i < |keys| ==> MatchKey(keys[i]) == Some(r.value[i])
  {
    if keys == [] then Some([])
    else
      match MatchKey(keys[0])
      case None => None
      case Some(m) =>
        match MatchAll(keys[1..])
        case None => None
        case Some(ms) => Some([m] + ms)
  }

  /** The key's column text reads as `column` (`parseInt` of a digit text is its decimal value). */
  predicate RefInColumn(ref: CellRef, column: int) {
    ParseInt(ref.colText) == Some(column)
  }

  /** `.filter(rowAndColPair => parseInt(rowAndColPair[0]) === column)`. */
  function InColumn(refs: seq<CellRef>, column: int): (r: seq<CellRef>)
    ensures forall x :: x in r <==> x in refs && RefInColumn(x, column)
    ensures forall x :: multiset(r)[x] == if RefInColumn(x, column) then multiset(refs)[x] else 0
  {
    if refs == [] then []
    else
      assert refs == [refs[0]] + refs[1..];
      (if RefInColumn(refs[0], column) then [refs[0]] else []) + InColumn(refs[1..], column)
  }

  /** `getColumnPositions(column)`: the cells of `column` that have a key, as the texts the keys hold. */
  function GetColumnPositions(store: Store, column: int): (r: Option<seq<CellRef>>)
    ensures r.Some? <==> AllKeysMatch(store.keys)
    ensures r.Some? ==> forall x :: x in r.value <==>
      RefInColumn(x, column) && exists i :: 0 <= i < |store.keys| && MatchKey(store.keys[i]) == Some(x)
    ensures r.Some? ==> MatchAll(store.keys).Some? && forall x ::
      multiset(r.value)[x] == if RefInColumn(x, column) then multiset(MatchAll(store.keys).value)[x] else 0
  {
    match MatchAll(store.keys)
    case None => None
    case Some(refs) =>
      assert forall x :: x in refs <==> exists i :: 0 <= i < |store.keys| && MatchKey(store.keys[i]) == Some(x) by {
        forall x ensures x in refs <==> exists i :: 0 <= i < |store.keys| && MatchKey(store.keys[i]) == Some(x) {
          if x in refs {
            var i :| 0 <= i < |refs| && refs[i] == x;
            assert MatchKey(store.keys[i]) == Some(x);
          }
        }
      }
      Some(InColumn(refs, column))
  }

  /** `model.getValue({col, row})` with the captured texts: the model reads key `${col}:${row}`. */
  function ValueAt(store: Store, ref: CellRef): Option<string> {
    store.Get(CellId(ref.colText, ref.rowText))
  }

  /** `.map(position => this.model.getValue(position))`. */
  function ValuesAt(store: Store, refs: seq<CellRef>): (r: seq<Option<string>>)
    ensures |r| == |refs|
    ensures forall i :: 0 <= i < |refs| ==> r[i] == ValueAt(store, refs[i])
  {
    if refs == [] then [] else [ValueAt(store, refs[0])] + ValuesAt(store, refs[1..])
  }

  /** `.map(value => parseInt(value, 10))`; `None` is NaN. */
  function ParseAll(values: seq<Option<string>>): (r: seq<Option<int>>)
    ensures |r| == |values|
    ensures forall i :: 0 <= i < |values| ==> r[i] == ParseInt(ToJsString(values[i]))
  {
    if values == [] then [] else [ParseInt(ToJsString(values[0]))] + ParseAll(values[1..])
  }

  /** `.filter(value => !isNaN(value))`. */
  function Numbers(xs: seq<Option<int>>): seq<int> {
    if xs == [] then []
    else (match xs[0] case Some(n) => [n] case None => []) + Numbers(xs[1..])
  }

  /** The NaN filter keeps every number, as often as it occurs, and drops only the NaNs. */
  lemma {:induction false} NumbersKeepsEveryNumber(xs: seq<Option<int>>)
    ensures |Numbers(xs)| == |xs| - multiset(xs)[None]
    ensures forall n :: multiset(Numbers(xs))[n] == multiset(xs)[Some(n)]
  {
    if xs != [] {
      assert xs == [xs[0]] + xs[1..];
      NumbersKeepsEveryNumber(xs[1..]);
    }
  }

  /** `.reduce((sum, value) => sum + value, 0)`. */
  function Sum(xs: seq<int>): int {
    if xs == [] then 0 else xs[0] + Sum(xs[1..])
  }

  /** The reduce adds up the parts of a sequence separately: the sum of a concatenation is the sum of the sums. */
  lemma {:induction false} SumAppend(xs: seq<int>, ys: seq<int>)
    ensures Sum(xs + ys) == Sum(xs) + Sum(ys)
  {
    if xs == [] {
      assert xs + ys == ys;
    } else {
      assert (xs + ys)[1..] == xs[1..] + ys;
      SumAppend(xs[1..], ys);
    }
  }

  /** `sumColumn(column)`; `None` is the TypeError raised when some key does not match. */
  function SumColumn(store: Store, column: int): (r: Option<int>)
    ensures r.None? <==> !AllKeysMatch(store.keys)
  {
    match GetColumnPositions(store, column)
    case None => None
    case Some(positions) => Some(Sum(Numbers(ParseAll(ValuesAt(store, positions)))))
  }

  // ---------------------------------------------------------------------
  // Reference total, key by key

  /** What one key adds to the sum of `column`: its value's leading integer, nothing when that is NaN or the key is elsewhere. */
  function KeyContribution(store: Store, key: string, column: int): int {
    match MatchKey(key)
    case None => 0
    case Some(ref) =>
      if RefInColumn(ref, column) then ParseInt(ToJsString(ValueAt(store, ref))).GetOr(0) else 0
  }

  /** The column total as a sum over the keys, independent of the pipeline's stages. */
  function ColumnTotal(store: Store, keys: seq<string>, column: int): int {
    if keys == [] then 0 else KeyContribution(store, keys[0], column) + ColumnTotal(store, keys[1..], column)
  }

  /** The pipeline on the refs of `keys` adds up exactly the keys' contributions. */
  lemma {:induction false} PipelineIsColumnTotal(store: Store, keys: seq<string>, column: int)
    requires AllKeysMatch(keys)
    ensures MatchAll(keys).Some?
    ensures Sum(Numbers(ParseAll(ValuesAt(store, InColumn(MatchAll(keys).value, column)))))
         == ColumnTotal(store, keys, column)
  {
    if keys != [] {
      var m := MatchKey(keys[0]).value;
      assert AllKeysMatch(keys[1..]) by {
        forall i | 0 <= i < |keys[1..]| ensures MatchKey(keys[1..][i]).Some? {
          assert keys[1..][i] == keys[i + 1];
        }
      }
      PipelineIsColumnTotal(store, keys[1..], column);
      var ms := MatchAll(keys[1..]).value;
      var refs := [m] + ms;
      assert MatchAll(keys).value == refs;
      assert refs[0] == m && refs[1..] == ms;
      var rest := InColumn(ms, column);
      if RefInColumn(m, column) {
        assert InColumn(refs, column) == [m] + rest;
        PipelineOfCons(store, m, rest);
      } else {
        assert InColumn(refs, column) == rest;
      }
    }
  }

  /** The pipeline on a list of refs adds the first ref's number, if any, to the rest's total. */
  lemma PipelineOfCons(store: Store, m: CellRef, rest: seq<CellRef>)
    ensures Sum(Numbers(ParseAll(ValuesAt(store, [m] + rest))))
         == ParseInt(ToJsString(ValueAt(store, m))).GetOr(0) + Sum(Numbers(ParseAll(ValuesAt(store, rest))))
  {
    var kept := [m] + rest;
    assert kept[0] == m && kept[1..] == rest;
    var vals := [ValueAt(store, m)] + ValuesAt(store, rest);
    assert ValuesAt(store, kept) == vals;
    assert vals[0] == ValueAt(store, m) && vals[1..] == ValuesAt(store, rest);
    var parsed := [ParseInt(ToJsString(ValueAt(store, m)))] + ParseAll(ValuesAt(store, rest));
    assert ParseAll(vals) == parsed;
    assert parsed[1..] == ParseAll(ValuesAt(store, rest));
    match ParseInt(ToJsString(ValueAt(store, m)))
    case None =>
      assert Numbers(parsed) == Numbers(ParseAll(ValuesAt(store, rest)));
    case Some(n) =>
      var nums := [n] + Numbers(ParseAll(ValuesAt(store, rest)));
      assert Numbers(parsed) == nums;
      assert nums[0] == n && nums[1..] == Numbers(ParseAll(ValuesAt(store, rest)));
  }

  /** `sumColumn` faults exactly when some key does not match, and otherwise is the reference total. */
  lemma SumColumnIsColumnTotal(store: Store, column: int)
    ensures SumColumn(store, column)
         == if AllKeysMatch(store.keys) then Some(ColumnTotal(store, store.keys, column)) else None
  {
    if AllKeysMatch(store.keys) {
      PipelineIsColumnTotal(store, store.keys, column);
    }
  }

  /** A key belongs to `column` when it matches and its column text reads as `column`. */
  predicate KeyInColumn(key: string, column: int) {
    MatchKey(key).Some? && RefInColumn(MatchKey(key).value, column)
  }

  /** The total splits over a concatenation of key lists. */
  lemma {:induction false} ColumnTotalAppend(store: Store, a: seq<string>, b: seq<string>, column: int)
    ensures ColumnTotal(store, a + b, column) == ColumnTotal(store, a, column) + ColumnTotal(store, b, column)
  {
    if a == [] {
      assert a + b == b;
    } else {
      assert (a + b)[0] == a[0] && (a + b)[1..] == a[1..] + b;
      ColumnTotalAppend(store, a[1..], b, column);
    }
  }

  /** Keys outside `column`, or holding no number, add nothing. */
  lemma {:induction false} ColumnTotalZero(store: Store, keys: seq<string>, column: int)
    requires forall i :: 0 <= i < |keys| && KeyInColumn(keys[i], column) ==>
      ParseInt(ToJsString(ValueAt(store, MatchKey(keys[i]).value))) == None
    ensures ColumnTotal(store, keys, column) == 0
  {
    if keys != [] {
      assert KeyInColumn(keys[0], column) ==> ParseInt(ToJsString(ValueAt(store, MatchKey(keys[0]).value))) == None;
      forall i | 0 <= i < |keys[1..]| && KeyInColumn(keys[1..][i], column)
        ensures ParseInt(ToJsString(ValueAt(store, MatchKey(keys[1..][i]).value))) == None
      {
        assert keys[1..][i] == keys[i + 1];
      }
      ColumnTotalZero(store, keys[1..], column);
    }
  }

  /**
   * `sumColumn(column)` is 0 when no key names `column`, and also when every
   * value in `column` is NaN to `parseInt` (absent, empty, "abc").
   */
  lemma SumColumnZero(store: Store, column: int)
    requires AllKeysMatch(store.keys)
    requires forall i :: 0 <= i < |store.keys| && KeyInColumn(store.keys[i], column) ==>
      ParseInt(ToJsString(ValueAt(store, MatchKey(store.keys[i]).value))) == None
    ensures SumColumn(store, column) == Some(0)
  {
    SumColumnIsColumnTotal(store, column);
    ColumnTotalZero(store, store.keys, column);
  }

  /** Contributions only read the cells of `column`: stores that agree there give the same total. */
  lemma {:induction false} ColumnTotalReadsOnlyColumn(s1: Store, s2: Store, keys: seq<string>, column: int)
    requires forall i :: 0 <= i < |keys| && KeyInColumn(keys[i], column) ==>
      ValueAt(s1, MatchKey(keys[i]).value) == ValueAt(s2, MatchKey(keys[i]).value)
    ensures ColumnTotal(s1, keys, column) == ColumnTotal(s2, keys, column)
  {
    if keys != [] {
      forall i | 0 <= i < |keys[1..]| && KeyInColumn(keys[1..][i], column)
        ensures ValueAt(s1, MatchKey(keys[1..][i]).value) == ValueAt(s2, MatchKey(keys[1..][i]).value)
      {
        assert keys[1..][i] == keys[i + 1];
      }
      ColumnTotalReadsOnlyColumn(s1, s2, keys[1..], column);
    }
  }

  /** No ref of `column` names the key of a cell in another column. */
  lemma RefOfOtherColumn(ref: CellRef, p: Position, column: int)
    requires 0 <= p.col && p.col != column
    requires AllDigits(ref.colText) && RefInColumn(ref, column)
    ensures CellId(ref.colText, ref.rowText) != PositionId(p)
  {
    if CellId(ref.colText, ref.rowText) == PositionId(p) {
      assert forall i :: 0 <= i < |ref.colText| ==> ref.colText[i] != ':';
      NoColonInIntText(p.col);
      CellIdSplits(ref.colText, ref.rowText, IntText(p.col), IntText(p.row));
      ParseIntOfIntTextAlone(p.col);
      assert false;
    }
  }

  /** The key the model writes for a cell matches, so it cannot make `sumColumn` fault. */
  lemma SetKeepsKeysMatching(store: Store, p: Position, value: string)
    requires 0 <= p.col && 0 <= p.row
    ensures AllKeysMatch(store.Set(PositionId(p), value).keys) <==> AllKeysMatch(store.keys)
  {
    var s2 := store.Set(PositionId(p), value);
    MatchKeyOfPositionId(p);
    if PositionId(p) !in store.values {
      assert forall i :: 0 <= i < |store.keys| ==> s2.keys[i] == store.keys[i];
      assert s2.keys[|store.keys|] == PositionId(p);
    }
  }

  /** Writing a cell of another column leaves the reference total of `column` as it was. */
  lemma ColumnTotalIgnoresOtherColumns(store: Store, p: Position, value: string, column: int)
    requires 0 <= p.col && 0 <= p.row && p.col != column
    ensures var s2 := store.Set(PositionId(p), value);
      ColumnTotal(s2, s2.keys, column) == ColumnTotal(store, store.keys, column)
  {
    var id := PositionId(p);
    var s2 := store.Set(id, value);
    forall i | 0 <= i < |store.keys| && KeyInColumn(store.keys[i], column)
      ensures ValueAt(s2, MatchKey(store.keys[i]).value) == ValueAt(store, MatchKey(store.keys[i]).value)
    {
      RefOfOtherColumn(MatchKey(store.keys[i]).value, p, column);
    }
    ColumnTotalReadsOnlyColumn(s2, store, store.keys, column);
    if id !in store.values {
      MatchKeyOfPositionId(p);
      assert KeyContribution(s2, id, column) == 0;
      assert ColumnTotal(s2, [id], column) == 0;
      ColumnTotalAppend(s2, store.keys, [id], column);
    }
  }

  /**
   * Writing a cell of another column leaves `sumColumn(column)` as it was:
   * only keys whose column reads as `column` contribute.
   */
  lemma SumColumnIgnoresOtherColumns(store: Store, p: Position, value: string, column: int)
    requires 0 <= p.col && 0 <= p.row && p.col != column
    ensures SumColumn(store.Set(PositionId(p), value), column) == SumColumn(store, column)
  {
    SetKeepsKeysMatching(store, p, value);
    ColumnTotalIgnoresOtherColumns(store, p, value, column);
    SumColumnIsColumnTotal(store, column);
    SumColumnIsColumnTotal(store.Set(PositionId(p), value), column);
  }

  /** A cell's key, and that key followed by a non-digit, match to the same reference, in the cell's column. */
  lemma MatchKeyOfExtendedKey(p: Position, rest: string)
    requires 0 <= p.col && 0 <= p.row
    requires rest != [] && !IsDigit(rest[0])
    ensures MatchKey(PositionId(p)) == Some(CellRef(IntText(p.col), IntText(p.row)))
    ensures MatchKey(PositionId(p) + rest) == Some(CellRef(IntText(p.col), IntText(p.row)))
    ensures RefInColumn(CellRef(IntText(p.col), IntText(p.row)), p.col)
  {
    MatchKeyOfPositionId(p);
    MatchKeyOf(IntText(p.col), IntText(p.row), rest);
  }

  /** The reference total over two keys. */
  lemma ColumnTotalOfTwo(s: Store, ks: seq<string>, column: int)
    requires |ks| == 2
    ensures ColumnTotal(s, ks, column) == KeyContribution(s, ks[0], column) + KeyContribution(s, ks[1], column)
  {
    assert ks[0..] == ks && ks[2..] == [];
    ColumnTotalStep(s, ks, 0, column);
    ColumnTotalStep(s, ks, 1, column);
  }

  /**
   * The sum is taken key by key, not cell by cell: a key that merely starts
   * with a cell's key, such as "1:2x" beside "1:2", reads that cell again.
   */
  lemma SumColumnCountsEachMatchingKey(store: Store, p: Position, rest: string, v: string)
    requires 0 <= p.col && 0 <= p.row
    requires rest != [] && !IsDigit(rest[0])
    requires store.keys == [PositionId(p), PositionId(p) + rest]
    requires store.Get(PositionId(p)) == Some(v)
    ensures SumColumn(store, p.col).Some?
    ensures SumColumn(store, p.col).value == 2 * ParseInt(v).GetOr(0)
  {
    var ks := store.keys;
    var ref := CellRef(IntText(p.col), IntText(p.row));
    MatchKeyOfExtendedKey(p, rest);
    assert ValueAt(store, ref) == Some(v);
    KeyContributionOfRef(store, ks[0], ref, p.col);
    KeyContributionOfRef(store, ks[1], ref, p.col);
    ColumnTotalOfTwo(store, ks, p.col);
    assert AllKeysMatch(ks);
    SumColumnIsColumnTotal(store, p.col);
  }

  /** One step of the reference total over a suffix of the keys. */
  lemma ColumnTotalStep(s: Store, ks: seq<string>, i: nat, column: int)
    requires i < |ks|
    ensures ColumnTotal(s, ks[i..], column) == KeyContribution(s, ks[i], column) + ColumnTotal(s, ks[i + 1..], column)
  {
    assert ks[i..][1..] == ks[i + 1..];
  }

  /** What a matching key adds, in terms of the reference it matched. */
  lemma KeyContributionOfRef(s: Store, key: string, ref: CellRef, column: int)
    requires MatchKey(key) == Some(ref)
    ensures KeyContribution(s, key, column)
         == if RefInColumn(ref, column) then ParseInt(ToJsString(ValueAt(s, ref))).GetOr(0) else 0
  {
  }

  /**
   * A key the model writes for a cell at non-negative coordinates adds the
   * cell's leading integer to the cell's own column, and nothing to any other.
   */
  lemma KeyContributionOfPositionId(s: Store, p: Position, column: int)
    requires 0 <= p.col && 0 <= p.row
    ensures MatchKey(PositionId(p)).Some?
    ensures KeyContribution(s, PositionId(p), column)
         == if p.col == column then ParseInt(ToJsString(s.Get(PositionId(p)))).GetOr(0) else 0
  {
    var ref := CellRef(IntText(p.col), IntText(p.row));
    MatchKeyOfPositionId(p);
    KeyContributionOfRef(s, PositionId(p), ref, column);
  }

  /** A small sheet: column 0 holds "10", "abc", "5" and "", column 1 holds "12abc". */
  predicate IsExampleSheet(s: Store) {
    && s.keys == [PositionId(Position(0, 0)), PositionId(Position(0, 1)), PositionId(Position(0, 2)),
                  PositionId(Position(0, 3)), PositionId(Position(1, 0))]
    && s.Get(s.keys[0]) == Some("10") && s.Get(s.keys[1]) == Some("abc") && s.Get(s.keys[2]) == Some("5")
    && s.Get(s.keys[3]) == Some("") && s.Get(s.keys[4]) == Some("12abc")
  }

  /** Cell (0, 0) holds "10": 10 in column 0. */
  lemma ExampleKey0(s: Store)
    requires IsExampleSheet(s)
    ensures MatchKey(s.keys[0]).Some?
    ensures KeyContribution(s, s.keys[0], 0) == 10 && KeyContribution(s, s.keys[0], 1) == 0
  {
    assert IntText(10) == NatText(1) + [DigitChar(0)] == "10";
    ParseIntOfIntTextAlone(10);
    KeyContributionOfPositionId(s, Position(0, 0), 0);
    KeyContributionOfPositionId(s, Position(0, 0), 1);
  }

  /** Cell (0, 1) holds "abc", which is NaN: nothing anywhere. */
  lemma ExampleKey1(s: Store)
    requires IsExampleSheet(s)
    ensures MatchKey(s.keys[1]).Some?
    ensures KeyContribution(s, s.keys[1], 0) == 0 && KeyContribution(s, s.keys[1], 1) == 0
  {
    ParseIntWithoutDigits("abc");
    KeyContributionOfPositionId(s, Position(0, 1), 0);
    KeyContributionOfPositionId(s, Position(0, 1), 1);
  }

  /** Cell (0, 2) holds "5": 5 in column 0. */
  lemma ExampleKey2(s: Store)
    requires IsExampleSheet(s)
    ensures MatchKey(s.keys[2]).Some?
    ensures KeyContribution(s, s.keys[2], 0) == 5 && KeyContribution(s, s.keys[2], 1) == 0
  {
    assert IntText(5) == "5";
    ParseIntOfIntTextAlone(5);
    KeyContributionOfPositionId(s, Position(0, 2), 0);
    KeyContributionOfPositionId(s, Position(0, 2), 1);
  }

  /** Cell (0, 3) holds "", which is NaN: nothing anywhere. */
  lemma ExampleKey3(s: Store)
    requires IsExampleSheet(s)
    ensures MatchKey(s.keys[3]).Some?
    ensures KeyContribution(s, s.keys[3], 0) == 0 && KeyContribution(s, s.keys[3], 1) == 0
  {
    ParseIntWithoutDigits("");
    KeyContributionOfPositionId(s, Position(0, 3), 0);
    KeyContributionOfPositionId(s, Position(0, 3), 1);
  }

  /** Cell (1, 0) holds "12abc": 12 in column 1, nothing in column 0. */
  lemma ExampleKey4(s: Store)
    requires IsExampleSheet(s)
    ensures MatchKey(s.keys[4]).Some?
    ensures KeyContribution(s, s.keys[4], 0) == 0 && KeyContribution(s, s.keys[4], 1) == 12
  {
    assert IntText(12) + "abc" == NatText(1) + [DigitChar(2)] + "abc" == "12abc";
    ParseIntOfIntText(12, "abc");
    KeyContributionOfPositionId(s, Position(1, 0), 0);
    KeyContributionOfPositionId(s, Position(1, 0), 1);
  }

  /** Five keys that each match. */
  lemma AllKeysMatchOfFive(ks: seq<string>)
    requires |ks| == 5
    requires MatchKey(ks[0]).Some? && MatchKey(ks[1]).Some? && MatchKey(ks[2]).Some?
    requires MatchKey(ks[3]).Some? && MatchKey(ks[4]).Some?
    ensures AllKeysMatch(ks)
  {
  }

  /** A store with five matching keys sums a column to the keys' five contributions. */
  lemma SumColumnOfFive(s: Store, column: int)
    requires |s.keys| == 5 && AllKeysMatch(s.keys)
    ensures SumColumn(s, column).Some?
    ensures SumColumn(s, column).value
         == KeyContribution(s, s.keys[0], column) + KeyContribution(s, s.keys[1], column)
          + KeyContribution(s, s.keys[2], column) + KeyContribution(s, s.keys[3], column)
          + KeyContribution(s, s.keys[4], column)
  {
    var ks := s.keys;
    assert ks[0..] == ks && ks[5..] == [];
    ColumnTotalStep(s, ks, 0, column);
    ColumnTotalStep(s, ks, 1, column);
    ColumnTotalStep(s, ks, 2, column);
    ColumnTotalStep(s, ks, 3, column);
    ColumnTotalStep(s, ks, 4, column);
    SumColumnIsColumnTotal(s, column);
  }

  /**
   * Column 0 sums to 10 + 5 = 15: "abc" and "" are NaN and add nothing.
   * Column 1 sums to 12: "12abc" contributes its leading digits.
   */
  lemma SumColumnExample(s: Store)
    requires IsExampleSheet(s)
    ensures SumColumn(s, 0) == Some(15)
    ensures SumColumn(s, 1) == Some(12)
  {
    ExampleKey0(s);
    ExampleKey1(s);
    ExampleKey2(s);
    ExampleKey3(s);
    ExampleKey4(s);
    AllKeysMatchOfFive(s.keys);
    SumColumnOfFive(s, 0);
    SumColumnOfFive(s, 1);
    assert SumColumn(s, 0).value == 15 && SumColumn(s, 1).value == 12;
  }
}
