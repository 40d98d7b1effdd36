/**
  The names the benchmark programs print and the Python tool that reads them back into operation and size, splits the
  sizes of the FIR suite and sorts them.
 */
module BenchNames {
  import opened Wrappers

  // ----- decimal numbers -----

  function Digit(d: nat): char
    requires d < 10
  {
    '0' + d as char
  }

  /** std::to_string of an unsigned number. */
  function Decimal(n: nat): (s: string)
    ensures s != ""
  {
    if n < 10 then [Digit(n)] else Decimal(n / 10) + [Digit(n % 10)]
  }

  /** str.isdigit, for ASCII. */
  predicate IsDigit(s: string) {
    s != "" && forall i :: 0 <= i < |s| ==> '0' <= s[i] <= '9'
  }

  /** int() of a string of digits. */
  function Value(s: string): nat
    requires s == "" || IsDigit(s)
  {
    if s == "" then 0
    else
      var last := |s| - 1;
      assert s[..last] == "" || IsDigit(s[..last]);
      10 * Value(s[..last]) + (s[last] - '0') as nat
  }

  lemma {:induction false} DecimalIsDigit(n: nat)
    ensures IsDigit(Decimal(n))
  {
    if n >= 10 {
      DecimalIsDigit(n / 10);
    }
  }

  /** Reading a printed number gives the number. */
  lemma {:induction false} ValueOfDecimal(n: nat)
    ensures IsDigit(Decimal(n)) && Value(Decimal(n)) == n
  {
    DecimalIsDigit(n);
    if n >= 10 {
      ValueOfDecimal(n / 10);
      var s := Decimal(n);
      assert s[..|s| - 1] == Decimal(n / 10);
    } else {
      assert Decimal(n)[..0] == "";
    }
  }

  /** A printed number has no leading zero. */
  lemma {:induction false} NoLeadingZero(n: nat)
    ensures Decimal(0) == "0"
    ensures n >= 1 ==> Decimal(n)[0] != '0'
  {
    if n >= 10 {
      NoLeadingZero(n / 10);
    }
  }

  lemma ValueStep(s: string)
    requires IsDigit(s)
    ensures |s| == 1 ==> Value(s) < 10 && s == [Digit(Value(s))]
    ensures |s| >= 2 ==>
      var head := s[..|s| - 1];
      IsDigit(head) && Value(s) / 10 == Value(head) && s == head + [Digit(Value(s) % 10)]
  {
    var last := |s| - 1;
    assert last == 0 ==> s[..last] == "";
    assert s == s[..last] + [s[last]];
  }

  /** And printing the value of a digit string without a leading zero gives the string. */
  lemma {:induction false} DecimalOfValue(s: string)
    requires IsDigit(s) && (|s| == 1 || s[0] != '0')
    ensures Decimal(Value(s)) == s
    ensures s[0] != '0' ==> Value(s) >= 1
  {
    ValueStep(s);
    if |s| >= 2 {
      var head := s[..|s| - 1];
      assert head[0] == s[0];
      DecimalOfValue(head);
    } else {
      assert Value(s) == 0 ==> Digit(Value(s)) == '0';
    }
    hide IsDigit, Value;
  }

  // ----- splitting -----

  /** str.split on one character. */
  function Split(s: string, c: char): (parts: seq<string>)
    ensures |parts| >= 1
  {
    if s == "" then [""]
    else if s[0] == c then [""] + Split(s[1..], c)
    else
      var rest := Split(s[1..], c);
      [[s[0]] + rest[0]] + rest[1..]
  }

  lemma {:induction false} SplitPiece(a: string, c: char, rest: string)
    requires c !in a
    ensures Split(a + [c] + rest, c) == [a] + Split(rest, c)
  {
    if a == "" {
      assert a + [c] + rest == [c] + rest;
      assert ([c] + rest)[1..] == rest;
    } else {
      SplitPiece(a[1..], c, rest);
      assert (a + [c] + rest)[1..] == a[1..] + [c] + rest;
      assert a == [a[0]] + a[1..];
    }
  }

  lemma {:induction false} SplitWhole(a: string, c: char)
    requires c !in a
    ensures Split(a, c) == [a]
  {
    if a != "" {
      SplitWhole(a[1..], c);
      assert a == [a[0]] + a[1..];
    }
  }

  /** str.split(pattern)[0]: what precedes the first occurrence. */
  function Before(s: string, pattern: string): string {
    if s == "" || pattern <= s then "" else [s[0]] + Before(s[1..], pattern)
  }

  const REPEATS := "/repeats:"

  /** The tail Google Benchmark appends when it repeats a benchmark: nothing, or "/repeats:" and whatever follows. */
  predicate IsTail(tail: string) {
    tail == "" || REPEATS <= tail
  }

  lemma PrefixAt(p: string, s: string, k: nat)
    requires k < |p|
    ensures p <= s ==> k < |s| && s[k] == p[k]
  {}

  /** The tail's pattern does not begin inside a name that has no colon. */
  lemma NotInName(name: string, tail: string)
    requires name != "" && ':' !in name && IsTail(tail)
    ensures !(REPEATS <= name + tail)
  {
    var s := name + tail;
    if |name| >= 9 {
      PrefixAt(REPEATS, s, 8);
      assert s[8] == name[8] && name[8] in name;
    } else if tail != "" {
      PrefixAt(REPEATS, s, |name|);
      PrefixAt(REPEATS, tail, 0);
      assert s[|name|] == tail[0] == '/';
      assert REPEATS[|name|] in "repeats:" by {
        assert REPEATS[1..] == "repeats:";
        assert REPEATS[|name|] == REPEATS[1..][|name| - 1];
      }
    }
  }

  lemma {:induction false} BeforeTail(name: string, tail: string)
    requires ':' !in name && IsTail(tail)
    ensures Before(name + tail, REPEATS) == name
  {
    if name == "" {
      assert name + tail == tail;
    } else {
      NotInName(name, tail);
      BeforeTail(name[1..], tail);
      assert (name + tail)[1..] == name[1..] + tail;
      assert name == [name[0]] + name[1..];
    }
  }

  // ----- the parser -----

  function IndexOf(parts: seq<string>, x: string): (i: nat)
    requires x in parts
    ensures i < |parts| && parts[i] == x
  {
    if parts[0] == x then 0 else 1 + IndexOf(parts[1..], x)
  }

  /** The last part that is all digits. */
  function LastNumber(parts: seq<string>): Option<string> {
    if parts == [] then None
    else if IsDigit(parts[|parts| - 1]) then Some(parts[|parts| - 1])
    else LastNumber(parts[..|parts| - 1])
  }

  /** The part after the first part `key`, if there is one and it is a number. */
  function NumberAfter(parts: seq<string>, key: string): Option<string> {
    if key !in parts then None
    else
      var i := IndexOf(parts, key);
      if i + 1 < |parts| && IsDigit(parts[i + 1]) then Some(parts[i + 1]) else None
  }

  function ParseBenchName(fullName: string): (string, Option<string>) {
    var parts := Split(Before(fullName, REPEATS), '/');
    var block := NumberAfter(parts, "block");
    if block.Some? then
      var taps := NumberAfter(parts, "taps");
      (parts[0], Some(if taps.Some? then block.value + "x" + taps.value else block.value))
    else (parts[0], LastNumber(parts))
  }

  /** str.split("x", 1) */
  function SplitOnce(s: string): (parts: seq<string>)
    ensures |parts| == 1 || |parts| == 2
  {
    if s == "" then [""]
    else if s[0] == 'x' then ["", s[1..]]
    else
      var rest := SplitOnce(s[1..]);
      [[s[0]] + rest[0]] + rest[1..]
  }

  function SplitFirSize(size: string): Option<(nat, nat)> {
    var parts := SplitOnce(size);
    if |parts| != 2 || !IsDigit(parts[0]) || !IsDigit(parts[1]) then None
    else Some((Value(parts[0]), Value(parts[1])))
  }

  datatype Key = Key(major: nat, minor: nat, size: string)

  function SizeSortKey(size: string): Key {
    var parts := SplitOnce(size);
    if |parts| == 2 && IsDigit(parts[0]) && IsDigit(parts[1]) then Key(Value(parts[0]), Value(parts[1]), size)
    else if IsDigit(size) then Key(Value(size), 0, size)
    else Key(0, 0, size)
  }

  predicate StringLess(a: string, b: string) {
    b != "" && (a == "" || a[0] < b[0] || (a[0] == b[0] && StringLess(a[1..], b[1..])))
  }

  /** The order of Python tuples. */
  predicate KeyLess(a: Key, b: Key) {
    a.major < b.major
    || (a.major == b.major && (a.minor < b.minor || (a.minor == b.minor && StringLess(a.size, b.size))))
  }

  // ----- the printers -----

  function FirName(op: string, block: nat, taps: nat): string {
    op + "/real/f32/block/" + (Decimal(block) + "/taps/" + Decimal(taps))
  }

  function FirSize(block: nat, taps: nat): string {
    Decimal(block) + "x" + Decimal(taps)
  }

  function FftName(op: string, n: nat): string {
    op + "/c2c/f32/" + Decimal(n)
  }

  predicate IsOperation(op: string) {
    op == "execute" || op == "plan_create"
  }

  lemma OperationChars(op: string)
    requires IsOperation(op)
    ensures '/' !in op && ':' !in op && op != "block" && op != "taps"
    ensures !IsDigit(op)
  {
    assert op[0] == 'e' || op[0] == 'p';
    assert op == "execute" ==> op != "block";
  }

  lemma DigitsOnly(s: string)
    requires IsDigit(s)
    ensures '/' !in s && ':' !in s && 'x' !in s && s != "block" && s != "taps"
  {
    assert "block"[0] == 'b' && "taps"[0] == 't';
  }

  lemma SplitCons(a: string, rest: string)
    requires '/' !in a
    ensures Split(a + ("/" + rest), '/') == [a] + Split(rest, '/')
  {
    assert a + ("/" + rest) == a + ['/'] + rest;
    SplitPiece(a, '/', rest);
  }

  /** None of the fixed parts holds a separator. */
  lemma FixedParts()
    ensures '/' !in "real" && '/' !in "f32" && '/' !in "block" && '/' !in "taps" && '/' !in "c2c"
  {}

  lemma FirNameInParts(op: string, block: nat, taps: nat)
    ensures FirName(op, block, taps)
         == op + ("/" + ("real" + ("/" + ("f32" + ("/" + ("block" + ("/" +
              (Decimal(block) + ("/" + ("taps" + ("/" + Decimal(taps))))))))))))
  {
    var b, t := Decimal(block), Decimal(taps);
    hide Decimal;
    assert b + "/taps/" + t == b + ("/" + ("taps" + ("/" + t)));
    var s4 := b + "/taps/" + t;
    assert "/real/f32/block/" + s4 == "/" + ("real" + ("/" + ("f32" + ("/" + ("block" + ("/" + s4))))));
    assert op + "/real/f32/block/" + s4 == op + ("/real/f32/block/" + s4);
  }

  lemma FirNameHasNoColon(op: string, block: nat, taps: nat)
    requires ':' !in op
    ensures ':' !in FirName(op, block, taps)
  {
    DecimalIsDigit(block);
    DecimalIsDigit(taps);
    DigitsOnly(Decimal(block));
    DigitsOnly(Decimal(taps));
    hide Decimal, IsDigit;
    assert ':' !in "/real/f32/block/" && ':' !in "/taps/";
  }

  /** The parts of a FIR benchmark's name. */
  lemma FirParts(op: string, block: nat, taps: nat)
    requires '/' !in op
    ensures Split(FirName(op, block, taps), '/')
         == [op, "real", "f32", "block", Decimal(block), "taps", Decimal(taps)]
  {
    hide *;
    FixedParts();
    FirNameInParts(op, block, taps);
    var b, t := Decimal(block), Decimal(taps);
    DecimalIsDigit(block);
    DecimalIsDigit(taps);
    DigitsOnly(b);
    DigitsOnly(t);
    var s5 := "taps" + ("/" + t);
    var s4 := b + ("/" + s5);
    var s3 := "block" + ("/" + s4);
    var s2 := "f32" + ("/" + s3);
    var s1 := "real" + ("/" + s2);
    SplitWhole(t, '/');
    SplitCons("taps", t);
    SplitCons(b, s5);
    SplitCons("block", s4);
    SplitCons("f32", s3);
    SplitCons("real", s2);
    SplitCons(op, s1);
  }

  lemma NumberAfterAt(parts: seq<string>, key: string, i: nat)
    requires i + 1 < |parts| && parts[i] == key && key !in parts[..i] && IsDigit(parts[i + 1])
    ensures NumberAfter(parts, key) == Some(parts[i + 1])
  {
    IndexOfAt(parts, key, i);
  }

  lemma {:induction false} IndexOfAt(parts: seq<string>, key: string, i: nat)
    requires i < |parts| && parts[i] == key && key !in parts[..i]
    ensures IndexOf(parts, key) == i
  {
    if i > 0 {
      assert parts[0] in parts[..i];
      assert parts[1..][..i - 1] == parts[..i][1..];
      IndexOfAt(parts[1..], key, i - 1);
    }
  }

  /** The parser reads what the FIR benchmark printed, with or without a repetition tail. */
  lemma FirNameIsRead(op: string, block: nat, taps: nat, tail: string)
    requires (op == "execute" || op == "plan_create") && (tail == "" || "/repeats:" <= tail)
    ensures ParseBenchName(FirName(op, block, taps) + tail) == (op, Some(Decimal(block) + "x" + Decimal(taps)))
  {
    OperationChars(op);
    FirParts(op, block, taps);
    FirNameHasNoColon(op, block, taps);
    BeforeTail(FirName(op, block, taps), tail);
    DecimalIsDigit(block);
    DecimalIsDigit(taps);
    DigitsOnly(Decimal(block));
    hide FirName, Decimal, Split, Before, IsDigit, IsTail, IsOperation, NumberAfter;
    var parts := [op, "real", "f32", "block", Decimal(block), "taps", Decimal(taps)];
    FirPartsAreRead(parts, op, Decimal(block), Decimal(taps));
  }

  lemma {:induction false} LastNumberAt(parts: seq<string>, k: nat)
    requires k < |parts| && IsDigit(parts[k]) && forall i :: k < i < |parts| ==> !IsDigit(parts[i])
    ensures LastNumber(parts) == Some(parts[k])
  {
    hide IsDigit;
    if k + 1 < |parts| {
      LastNumberAt(parts[..|parts| - 1], k);
    }
  }

  lemma {:induction false} NoNumber(parts: seq<string>)
    requires forall i :: 0 <= i < |parts| ==> !IsDigit(parts[i])
    ensures LastNumber(parts) == None
  {
    hide IsDigit;
    if parts != [] {
      NoNumber(parts[..|parts| - 1]);
    }
  }

  /** Part `i` is the first `key`, and no number follows it. */
  predicate NoNumberAfter(parts: seq<string>, key: string, i: nat) {
    && i < |parts| && parts[i] == key && key !in parts[..i]
    && (i + 1 == |parts| || !IsDigit(parts[i + 1]))
  }

  /** A name with a block size but no tap count has the block size as its size. */
  lemma BlockWithoutTaps(name: string, tail: string, parts: seq<string>, i: nat, j: nat)
    requires ':' !in name && (tail == "" || "/repeats:" <= tail) && parts == Split(name, '/')
    requires i + 1 < |parts| && parts[i] == "block" && "block" !in parts[..i] && IsDigit(parts[i + 1])
    requires "taps" !in parts || NoNumberAfter(parts, "taps", j)
    ensures ParseBenchName(name + tail) == (parts[0], Some(parts[i + 1]))
  {
    BeforeTail(name, tail);
    hide Split, Before, IsDigit, LastNumber;
    NumberAfterAt(parts, "block", i);
    if "taps" in parts {
      IndexOfAt(parts, "taps", j);
    }
    hide IndexOf;
  }

  /** A name without a readable block size has its last number as its size, if it has a number at all. */
  lemma LastNumberIsSize(name: string, tail: string, parts: seq<string>, i: nat, k: nat)
    requires ':' !in name && (tail == "" || "/repeats:" <= tail) && parts == Split(name, '/')
    requires "block" !in parts || NoNumberAfter(parts, "block", i)
    requires k == |parts| || (k < |parts| && IsDigit(parts[k]))
    requires forall l :: 0 <= l < |parts| && (k == |parts| || k < l) ==> !IsDigit(parts[l])
    ensures ParseBenchName(name + tail) == (parts[0], if k < |parts| then Some(parts[k]) else None)
  {
    BeforeTail(name, tail);
    hide Split, Before, IsDigit, LastNumber;
    if "block" in parts {
      IndexOfAt(parts, "block", i);
    }
    hide IndexOf;
    if k < |parts| {
      LastNumberAt(parts, k);
    } else {
      NoNumber(parts);
    }
  }

  lemma FirPartsAreRead(parts: seq<string>, op: string, b: string, t: string)
    requires parts == [op, "real", "f32", "block", b, "taps", t]
    requires op != "block" && op != "taps" && b != "taps" && IsDigit(b) && IsDigit(t)
    ensures NumberAfter(parts, "block") == Some(b) && NumberAfter(parts, "taps") == Some(t)
  {
    hide NumberAfter, IsDigit;
    assert "real"[0] == 'r' && "f32"[0] == 'f' && "block"[0] == 'b' && "taps"[0] == 't';
    NumberAfterAt(parts, "block", 3);
    NumberAfterAt(parts, "taps", 5);
  }

  lemma {:induction false} SplitOnceAt(a: string, b: string)
    requires 'x' !in a
    ensures SplitOnce(a + "x" + b) == [a, b]
  {
    if a == "" {
      assert a + "x" + b == "x" + b;
    } else {
      SplitOnceAt(a[1..], b);
      assert (a + "x" + b)[1..] == a[1..] + "x" + b;
      assert a == [a[0]] + a[1..];
    }
  }

  lemma {:induction false} SplitOnceWhole(a: string)
    requires 'x' !in a
    ensures SplitOnce(a) == [a]
  {
    if a != "" {
      SplitOnceWhole(a[1..]);
      assert a == [a[0]] + a[1..];
    }
  }

  lemma {:induction false} SplitOnceInverse(s: string)
    ensures var parts := SplitOnce(s);
            && 'x' !in parts[0]
            && s == if |parts| == 1 then parts[0] else parts[0] + "x" + parts[1]
  {
    if s != "" && s[0] != 'x' {
      SplitOnceInverse(s[1..]);
      var rest := SplitOnce(s[1..]);
      assert s == [s[0]] + s[1..];
    }
  }

  /** The splitter accepts exactly two numbers with an "x" in between. */
  lemma FirSizeSplits(s: string, block: nat, taps: nat)
    ensures SplitFirSize(s) == Some((block, taps))
       <==> exists b, t :: IsDigit(b) && IsDigit(t) && s == b + "x" + t && Value(b) == block && Value(t) == taps
  {
    SplitOnceInverse(s);
    hide SplitOnce, IsDigit, Value;
    if b, t :| IsDigit(b) && IsDigit(t) && s == b + "x" + t && Value(b) == block && Value(t) == taps {
      SizeOfDigits(b, t);
    }
    if SplitFirSize(s) == Some((block, taps)) {
      var parts := SplitOnce(s);
      assert IsDigit(parts[0]) && IsDigit(parts[1]) && s == parts[0] + "x" + parts[1];
    }
  }

  lemma SizeOfDigits(b: string, t: string)
    requires IsDigit(b) && IsDigit(t)
    ensures SplitFirSize(b + "x" + t) == Some((Value(b), Value(t)))
  {
    DigitsOnly(b);
    SplitOnceAt(b, t);
    hide SplitOnce, IsDigit, Value;
  }

  /** The sort key of a size: its two numbers, its one number and 0, or two zeros. */
  lemma SortKeyCases(s: string)
    ensures SplitFirSize(s).Some? ==> SizeSortKey(s) == Key(SplitFirSize(s).value.0, SplitFirSize(s).value.1, s)
    ensures IsDigit(s) ==> SizeSortKey(s) == Key(Value(s), 0, s)
    ensures SplitFirSize(s).None? && !IsDigit(s) ==> SizeSortKey(s) == Key(0, 0, s)
  {
    if IsDigit(s) {
      DigitsOnly(s);
      SplitOnceWhole(s);
    }
    hide IsDigit, Value, SplitOnce;
  }

  /** The size of a FIR point splits into its two numbers, and sorts by them. */
  lemma FirSizeIsRead(block: nat, taps: nat)
    ensures SplitFirSize(FirSize(block, taps)) == Some((block, taps))
    ensures SizeSortKey(FirSize(block, taps)) == Key(block, taps, FirSize(block, taps))
  {
    ValueOfDecimal(block);
    ValueOfDecimal(taps);
    DigitsOnly(Decimal(block));
    SplitOnceAt(Decimal(block), Decimal(taps));
    hide Decimal, Value, IsDigit, SplitOnce;
  }

  /** The whole way: the printed name, the parser and the splitter give the two numbers back. */
  lemma FirNameRoundTrip(op: string, block: nat, taps: nat, tail: string)
    requires (op == "execute" || op == "plan_create") && (tail == "" || "/repeats:" <= tail)
    ensures var (readOp, size) := ParseBenchName(FirName(op, block, taps) + tail);
            readOp == op && size.Some? && SplitFirSize(size.value) == Some((block, taps))
  {
    FirNameIsRead(op, block, taps, tail);
    FirSizeIsRead(block, taps);
    hide *;
  }

  /** Two benchmark points share a result row only if they are the same point. */
  lemma PointsDoNotCollide(op1: string, block1: nat, taps1: nat, tail1: string,
                           op2: string, block2: nat, taps2: nat, tail2: string)
    requires op1 == "execute" || op1 == "plan_create"
    requires op2 == "execute" || op2 == "plan_create"
    requires (tail1 == "" || "/repeats:" <= tail1) && (tail2 == "" || "/repeats:" <= tail2)
    ensures ParseBenchName(FirName(op1, block1, taps1) + tail1) == ParseBenchName(FirName(op2, block2, taps2) + tail2)
       <==> op1 == op2 && block1 == block2 && taps1 == taps2
  {
    FirNameIsRead(op1, block1, taps1, tail1);
    FirNameIsRead(op2, block2, taps2, tail2);
    FirSizeIsRead(block1, taps1);
    FirSizeIsRead(block2, taps2);
    hide ParseBenchName, FirSize, SplitFirSize, SizeSortKey;
  }

  lemma {:induction false} StringLessIrreflexive(s: string)
    ensures !StringLess(s, s)
  {
    if s != "" {
      StringLessIrreflexive(s[1..]);
    }
  }

  /** Sizes with equal numbers sort as text: a prefix first, otherwise by the first character that differs. */
  lemma {:induction false} TextOrder(p: string, s: string, t: string)
    requires s == "" || t == "" || s[0] != t[0]
    ensures StringLess(p + s, p + t) <==> t != "" && (s == "" || s[0] < t[0])
  {
    if p == "" {
      assert p + s == s && p + t == t;
    } else {
      TextOrder(p[1..], s, t);
      assert (p + s)[1..] == p[1..] + s && (p + t)[1..] == p[1..] + t;
    }
  }

  /** The tables list the FIR points in the order of their number pairs, not of their spelling. */
  lemma SortsAsNumberPairs(block1: nat, taps1: nat, block2: nat, taps2: nat)
    ensures KeyLess(SizeSortKey(FirSize(block1, taps1)), SizeSortKey(FirSize(block2, taps2)))
       <==> block1 < block2 || (block1 == block2 && taps1 < taps2)
  {
    FirSizeIsRead(block1, taps1);
    FirSizeIsRead(block2, taps2);
    StringLessIrreflexive(FirSize(block1, taps1));
    hide FirSize, SizeSortKey, StringLess;
  }

  /** The FFT suite's names carry one number, which the parser takes as the size and the tables sort by. */
  lemma FftNameRoundTrip(op: string, n: nat, tail: string)
    requires (op == "execute" || op == "plan_create") && (tail == "" || "/repeats:" <= tail)
    ensures ParseBenchName(FftName(op, n) + tail) == (op, Some(Decimal(n)))
    ensures SizeSortKey(Decimal(n)) == Key(n, 0, Decimal(n))
  {
    var d := Decimal(n);
    ValueOfDecimal(n);
    DigitsOnly(d);
    OperationChars(op);
    SplitOnceWhole(d);
    FftParts(op, n);
    BeforeTail(FftName(op, n), tail);
    var parts := [op, "c2c", "f32", d];
    assert "block" !in parts by {
      assert "c2c"[0] == 'c' && "f32"[0] == 'f' && "block"[0] == 'b';
    }
    hide Decimal, Value, IsDigit, Split, Before, SplitOnce, FftName, IsOperation;
  }

  lemma FftParts(op: string, n: nat)
    requires '/' !in op && ':' !in op
    ensures Split(FftName(op, n), '/') == [op, "c2c", "f32", Decimal(n)]
    ensures ':' !in FftName(op, n)
  {
    var d := Decimal(n);
    DecimalIsDigit(n);
    DigitsOnly(d);
    hide Decimal, IsDigit, Split;
    assert ':' !in "/c2c/f32/";
    assert "/c2c/f32/" + d == "/" + ("c2c" + ("/" + ("f32" + ("/" + d))));
    assert op + "/c2c/f32/" + d == op + ("/c2c/f32/" + d);
    FixedParts();
    SplitWhole(d, '/');
    SplitCons("f32", d);
    SplitCons("c2c", "f32" + ("/" + d));
    SplitCons(op, "c2c" + ("/" + ("f32" + ("/" + d))));
  }
}
