/** The order keys the board sends when a task is dropped: the numeric scheme of the board
    component (components/kanban/board.tsx) and of `updateTaskStatus`
    (lib/services/project-service.ts), the zero-padded index keys of `updateTaskOrder` and of
    the task-management hook, and `arrayMove`, which fixes the order those keys number. */
module OrderKeys {
  import opened Strings

  /** The key the board gives a task dropped at `destIndex` of a column whose keys, in
      ascending order, are `keys`. */
  function BoardNewOrder(keys: seq<real>, destIndex: nat): (r: real)
    ensures |keys| == 0 ==> r == 1000.0
    ensures |keys| > 0 && destIndex == 0 ==> r * 2.0 == keys[0] && (keys[0] > 0.0 ==> 0.0 < r < keys[0])
    ensures |keys| > 0 && destIndex > 0 && destIndex >= |keys| ==> r == keys[|keys| - 1] + 1000.0 && r > keys[|keys| - 1]
    ensures 0 < destIndex < |keys| ==>
      r * 2.0 == keys[destIndex - 1] + keys[destIndex] &&
      (keys[destIndex - 1] < keys[destIndex] ==> keys[destIndex - 1] < r < keys[destIndex])
  {
    if |keys| == 0 then 1000.0
    else if destIndex == 0 then keys[0] / 2.0
    else if destIndex >= |keys| then keys[|keys| - 1] + 1000.0
    else (keys[destIndex - 1] + keys[destIndex]) / 2.0
  }

  /** The key `updateTaskStatus` gives a task moved into a column whose keys, read as
      integers in ascending order, are `keys`: 1000 for an empty column, the one key plus
      1000, and otherwise the midpoint of the last two keys, which is not past the last. */
  function ServiceNewOrder(keys: seq<int>): (r: real)
    ensures |keys| == 0 ==> r == 1000.0
    ensures |keys| == 1 ==> r == keys[0] as real + 1000.0 && r > keys[0] as real
    ensures |keys| >= 2 ==>
      var last, second := keys[|keys| - 1] as real, keys[|keys| - 2] as real;
      r * 2.0 == last + second && (second < last ==> second < r < last) && (second == last ==> r == last)
  {
    if |keys| == 0 then 1000.0
    else if |keys| == 1 then keys[0] as real + 1000.0
    else (keys[|keys| - 1] as real + keys[|keys| - 2] as real) / 2.0
  }

  /** Moving into a column that already holds two tasks with distinct ascending keys leaves
      the moved task before the column's last task. */
  lemma ServiceOrderNotAfterLast(keys: seq<int>)
    requires |keys| >= 2 && keys[|keys| - 2] < keys[|keys| - 1]
    ensures ServiceNewOrder(keys) < keys[|keys| - 1] as real
  {
  }

  function Pow10(w: nat): (r: nat)
    ensures r >= 1
  {
    if w == 0 then 1 else 10 * Pow10(w - 1)
  }

  /** The last `w` decimal digits of `n`, leading zeros included. */
  function Digits(n: nat, w: nat): (r: string)
    ensures |r| == w
  {
    if w == 0 then [] else Digits(n / 10, w - 1) + [DigitChar(n % 10)]
  }

  lemma {:induction false} DigitsOfZero(w: nat)
    ensures Digits(0, w) == Repeat('0', w)
  {
    if w > 0 { DigitsOfZero(w - 1); }
  }

  lemma {:induction false} DecimalLength(n: nat, w: nat)
    requires w >= 1 && n < Pow10(w)
    ensures |Decimal(n)| <= w
    decreases n
  {
    if n >= 10 {
      assert Pow10(1) == 10;
      assert w >= 2;
      DecimalLength(n / 10, w - 1);
    }
  }

  /** Left-padding `String(n)` with zeros to `w` characters writes `n` in `w` digits. */
  lemma {:induction false} PaddedDecimalIsDigits(n: nat, w: nat)
    requires w >= 1 && n < Pow10(w)
    ensures PadStart(Decimal(n), w, '0') == Digits(n, w)
    decreases n
  {
    if n < 10 {
      DigitsOfZero(w - 1);
      assert Digits(n, w) == Repeat('0', w - 1) + [DigitChar(n)];
    } else {
      assert Pow10(1) == 10;
      assert w >= 2;
      DecimalLength(n, w);
      DecimalLength(n / 10, w - 1);
      PaddedDecimalIsDigits(n / 10, w - 1);
      var d := Decimal(n / 10);
      calc {
        PadStart(Decimal(n), w, '0');
        Repeat('0', w - |Decimal(n)|) + (d + [DigitChar(n % 10)]);
        { assert w - |Decimal(n)| == (w - 1) - |d|; }
        (Repeat('0', (w - 1) - |d|) + d) + [DigitChar(n % 10)];
        PadStart(d, w - 1, '0') + [DigitChar(n % 10)];
        Digits(n, w);
      }
    }
  }

  /** Fixed-width digit strings sort lexicographically as their numbers do. */
  lemma {:induction false} DigitsOrdered(a: nat, b: nat, w: nat)
    requires a < b < Pow10(w)
    ensures LexLess(Digits(a, w), Digits(b, w))
    decreases w
  {
    assert w >= 1;
    if a / 10 < b / 10 {
      DigitsOrdered(a / 10, b / 10, w - 1);
      LexLessAppend(Digits(a / 10, w - 1), Digits(b / 10, w - 1), [DigitChar(a % 10)], [DigitChar(b % 10)]);
    } else {
      assert a / 10 == b / 10 && a % 10 < b % 10;
      LexLessLastChar(Digits(a / 10, w - 1), DigitChar(a % 10), DigitChar(b % 10));
    }
  }

  /** The key the i-th task id is sent with: `${i + 1}`.padStart(5, '0'). */
  function PaddedKey(i: nat): string {
    PadStart(Decimal(i + 1), 5, '0')
  }

  /** The keys for `n` ids, in order. */
  function PaddedKeys(n: nat): (r: seq<string>)
    ensures |r| == n && forall i :: 0 <= i < n ==> r[i] == PaddedKey(i)
  {
    seq(n, i requires 0 <= i => PaddedKey(i))
  }

  /** For fewer than 100000 ids every key is five characters long and the keys sort
      lexicographically in index order, so the order they store is the order sent. */
  lemma PaddedKeysOrdered(i: nat, j: nat)
    requires i < j < 99999
    ensures |PaddedKey(i)| == 5 && |PaddedKey(j)| == 5
    ensures LexLess(PaddedKey(i), PaddedKey(j))
  {
    assert Pow10(5) == 100000;
    PaddedDecimalIsDigits(i + 1, 5);
    PaddedDecimalIsDigits(j + 1, 5);
    DigitsOrdered(i + 1, j + 1, 5);
  }

  /** `arrayMove(s, from, to)`: take the element at `from` out and insert it at `to`. */
  function ArrayMove<T>(s: seq<T>, from: nat, to: nat): (r: seq<T>)
    requires from < |s| && to < |s|
    ensures |r| == |s| && r[to] == s[from]
    ensures multiset(r) == multiset(s)
    ensures r[..to] + r[to + 1..] == s[..from] + s[from + 1..]
  {
    var rest := s[..from] + s[from + 1..];
    assert s == s[..from] + [s[from]] + s[from + 1..];
    assert multiset(s) == multiset(rest) + multiset{s[from]};
    assert rest == rest[..to] + rest[to..];
    assert multiset(rest) == multiset(rest[..to]) + multiset(rest[to..]);
    rest[..to] + [s[from]] + rest[to..]
  }

  /** Moving back from `to` to `from` undoes a move. */
  lemma ArrayMoveInverse<T>(s: seq<T>, from: nat, to: nat)
    requires from < |s| && to < |s|
    ensures ArrayMove(ArrayMove(s, from, to), to, from) == s
  {
    var x := s[from];
    var rest := s[..from] + s[from + 1..];
    var r := ArrayMove(s, from, to);
    assert r == rest[..to] + [x] + rest[to..];
    assert r[..to] + r[to + 1..] == rest;
    assert rest[..from] + [x] + rest[from..] == s;
  }
}
