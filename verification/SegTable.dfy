/**
 Segment file names and the ascending table of base sequences read out of
 the directory.
 */
module SegTable {
  import opened Bytes
  import opened Wrappers

  const DIGITS := 20
  const NAME_LEN := 24        // digits and ".seg"
  const MAX_SEGMENTS := 1024

  // ---- names ----

  function DigitChar(d: nat): (c: char)
    requires d < 10
    ensures '0' <= c <= '9'
  {
    '0' + d as char
  }

  function DigitOf(c: char): (d: nat)
    requires '0' <= c <= '9'
    ensures d < 10 && DigitChar(d) == c
  {
    (c - '0') as int
  }

  /** The low n decimal digits of v, most significant first. */
  function Decimal(v: nat, n: nat): (s: string)
    ensures |s| == n && AllDigits(s)
  {
    if n == 0 then "" else Decimal(v / 10, n - 1) + [DigitChar(v % 10)]
  }

  predicate AllDigits(s: string) {
    forall i :: 0 <= i < |s| ==> '0' <= s[i] <= '9'
  }

  function Number(s: string): nat
    requires AllDigits(s)
  {
    if s == "" then 0 else 10 * Number(s[..|s| - 1]) + DigitOf(s[|s| - 1])
  }

  function Pow10(n: nat): (p: nat)
    ensures p >= 1
  {
    if n == 0 then 1 else 10 * Pow10(n - 1)
  }

  /** The file name of the segment that starts at base. */
  function Name(base: nat): (s: string)
    ensures |s| == NAME_LEN
  {
    Decimal(base, DIGITS) + ".seg"
  }

  lemma {:induction false} NumberDecimal(v: nat, n: nat)
    requires v < Pow10(n)
    ensures Number(Decimal(v, n)) == v
  {
    if n > 0 {
      NumberDecimal(v / 10, n - 1);
      var s := Decimal(v, n);
      assert s[..n - 1] == Decimal(v / 10, n - 1);
      DigitRoundTrip(v % 10);
    }
  }

  lemma DigitRoundTrip(d: nat)
    requires d < 10
    ensures DigitOf(DigitChar(d)) == d
  {}

  lemma TenSplit(n: nat, d: nat)
    requires d < 10
    ensures (10 * n + d) / 10 == n && (10 * n + d) % 10 == d
  {}

  lemma {:induction false} DecimalNumber(s: string)
    requires AllDigits(s)
    ensures Number(s) < Pow10(|s|) && Decimal(Number(s), |s|) == s
  {
    hide DigitOf, DigitChar;
    if s != "" {
      DecimalNumber(s[..|s| - 1]);
      TenSplit(Number(s[..|s| - 1]), DigitOf(s[|s| - 1]));
      assert s == s[..|s| - 1] + [s[|s| - 1]];
    }
  }

  lemma U64FitsDigits()
    ensures U64_LIMIT <= Pow10(DIGITS)
  {
    TwentyDigits();
  }

  /** Order of strings of one length, first difference first. */
  predicate LexLess(s: string, t: string)
    requires |s| == |t|
  {
    s != "" && (s[0] < t[0] || (s[0] == t[0] && LexLess(s[1..], t[1..])))
  }

  lemma {:induction false} LexAppend(s: string, t: string, c: char, d: char)
    requires |s| == |t|
    ensures LexLess(s + [c], t + [d]) <==> LexLess(s, t) || (s == t && c < d)
  {
    if s != "" {
      LexAppend(s[1..], t[1..], c, d);
      assert (s + [c])[1..] == s[1..] + [c] && (t + [d])[1..] == t[1..] + [d];
      assert s == [s[0]] + s[1..] && t == [t[0]] + t[1..];
    } else {
      assert (s + [c])[1..] == "" && (t + [d])[1..] == "";
    }
  }

  lemma DecimalInjective(a: nat, b: nat, n: nat)
    requires a < Pow10(n) && b < Pow10(n)
    ensures Decimal(a, n) == Decimal(b, n) <==> a == b
  {
    NumberDecimal(a, n);
    NumberDecimal(b, n);
  }

  lemma DigitOrder(c: nat, d: nat)
    requires c < 10 && d < 10
    ensures DigitChar(c) < DigitChar(d) <==> c < d
  {}

  lemma TenOrder(a: nat, b: nat)
    ensures a < b <==> a / 10 < b / 10 || (a / 10 == b / 10 && a % 10 < b % 10)
  {}

  lemma {:induction false} LexDecimal(a: nat, b: nat, n: nat)
    requires a < Pow10(n) && b < Pow10(n)
    ensures LexLess(Decimal(a, n), Decimal(b, n)) <==> a < b
  {
    if n > 0 {
      hide AllDigits, LexLess, Number;
      LexDecimal(a / 10, b / 10, n - 1);
      LexAppend(Decimal(a / 10, n - 1), Decimal(b / 10, n - 1), DigitChar(a % 10), DigitChar(b % 10));
      DecimalInjective(a / 10, b / 10, n - 1);
      DigitOrder(a % 10, b % 10);
      TenOrder(a, b);
      assert Decimal(a, n) == Decimal(a / 10, n - 1) + [DigitChar(a % 10)];
      assert Decimal(b, n) == Decimal(b / 10, n - 1) + [DigitChar(b % 10)];
    }
  }

  lemma {:induction false} LexSuffix(s: string, t: string, u: string)
    requires |s| == |t|
    ensures LexLess(s + u, t + u) <==> LexLess(s, t)
    decreases |u|
  {
    if u == "" {
      assert s + u == s && t + u == t;
    } else {
      var v, c := u[..|u| - 1], u[|u| - 1];
      LexSuffix(s, t, v);
      LexAppend(s + v, t + v, c, c);
      assert s + u == (s + v) + [c] && t + u == (t + v) + [c];
    }
  }

  /** A directory listing sorts into log order without anything being parsed. */
  lemma NameOrder(a: u64, b: u64)
    ensures LexLess(Name(a), Name(b)) <==> a < b
  {
    U64FitsDigits();
    LexDecimal(a, b, DIGITS);
    LexSuffix(Decimal(a, DIGITS), Decimal(b, DIGITS), ".seg");
  }

  // ---- parsing ----

  /** The accumulation of the parser, which is in 64 bits and may wrap. */
  function Accumulate(s: string): Option<u64>
    requires AllDigits(s)
  {
    if s == "" then Some(0)
    else
      match Accumulate(s[..|s| - 1])
      case None => None
      case Some(v) =>
        if v > (U64_LIMIT - 1) / 10 then None
        else Some((v * 10 + DigitOf(s[|s| - 1])) % U64_LIMIT)
  }

  /** The name area of a directory entry holds digits, ".seg" and its NUL. */
  predicate HasForm(area: string) {
    |area| > NAME_LEN && AllDigits(area[..DIGITS]) && area[DIGITS..NAME_LEN + 1] == ".seg\0"
  }

  function Parse(area: string): Option<u64> {
    if !HasForm(area) then None
    else
      match Accumulate(area[..DIGITS])
      case None => None
      case Some(v) => if v == 0 then None else Some(v)
  }

  lemma NoWrap(v: nat, d: nat)
    requires v < 1000000000000000000 && d < 10
    ensures v <= (U64_LIMIT - 1) / 10 && (v * 10 + d) % U64_LIMIT == v * 10 + d
  {}

  lemma {:induction false} AccumulateShort(s: string)
    requires AllDigits(s) && |s| <= 19
    ensures Accumulate(s) == Some(Number(s))
  {
    hide Pow10, DigitOf, Decimal;
    if s != "" {
      var t := s[..|s| - 1];
      AccumulateShort(t);
      DecimalNumber(t);
      Pow10Mono(|t|, 18);
      Pow10At18();
      NoWrap(Number(t), DigitOf(s[|s| - 1]));
    }
  }

  lemma Pow10At18()
    ensures Pow10(18) == 1000000000000000000
  {
    assert Pow10(6) == 1000000;
    assert Pow10(12) == 1000000 * Pow10(6);
    assert Pow10(18) == 1000000 * Pow10(12);
  }

  lemma {:induction false} Pow10Mono(a: nat, b: nat)
    requires a <= b
    ensures Pow10(a) <= Pow10(b)
    decreases b
  {
    if a < b { Pow10Mono(a, b - 1); }
  }

  lemma FormIs(area: string)
    requires HasForm(area)
    ensures |area| > NAME_LEN && AllDigits(area[..DIGITS])
  {}

  /**
   What the overflow guard lets through: every 64-bit value, and the three
   just above 2^64 whose last digit wraps it round to a small one.
   */
  lemma ParseValue(area: string)
    requires HasForm(area)
    ensures var n := Number(area[..DIGITS]);
      && (0 < n < U64_LIMIT ==> Parse(area) == Some(n))
      && (U64_LIMIT < n < U64_LIMIT + 4 ==> Parse(area) == Some(n - U64_LIMIT))
      && (n == 0 || n == U64_LIMIT || U64_LIMIT + 4 <= n ==> Parse(area) == None)
  {
    hide HasForm, Number, Accumulate, Decimal, DigitOf;
    FormIs(area);
    var s := area[..DIGITS];
    AccumulateShort(s[..19]);
    LastDigit(s);
    WrapCases(Number(s[..19]), DigitOf(s[19]));
  }

  lemma LastDigit(s: string)
    requires AllDigits(s) && s != ""
    ensures var t, d := s[..|s| - 1], DigitOf(s[|s| - 1]);
      && Number(s) == 10 * Number(t) + d
      && Accumulate(s) == match Accumulate(t)
           case None => None
           case Some(v) => if v > (U64_LIMIT - 1) / 10 then None else Some((v * 10 + d) % U64_LIMIT)
  {}

  lemma WrapCases(v: nat, d: nat)
    requires d < 10
    ensures var n := 10 * v + d;
      && (v > (U64_LIMIT - 1) / 10 ==> n >= U64_LIMIT + 4)
      && (v <= (U64_LIMIT - 1) / 10 ==> n < U64_LIMIT + 4)
      && (n < U64_LIMIT ==> n % U64_LIMIT == n)
      && (U64_LIMIT <= n < U64_LIMIT + 4 ==> n % U64_LIMIT == n - U64_LIMIT)
  {}

  /** The parser inverts the name for every nonzero 64-bit base. */
  lemma ParseName(base: u64, rest: string)
    requires base > 0
    ensures Parse(Name(base) + "\0" + rest) == Some(base)
  {
    var area := Name(base) + "\0" + rest;
    assert area[..DIGITS] == Decimal(base, DIGITS);
    assert area[DIGITS..NAME_LEN + 1] == ".seg\0";
    U64FitsDigits();
    NumberDecimal(base, DIGITS);
    ParseValue(area);
  }

  /**
   The parser means to accept only names the log writes. It does so exactly
   for digits below 2^64.
   */
  lemma ParseAcceptsOnlyNames(area: string)
    requires Parse(area).Some?
    ensures area[..NAME_LEN] == Name(Parse(area).value) <==> Number(area[..DIGITS]) < U64_LIMIT
  {
    hide Decimal, Number, Accumulate, AllDigits;
    var s := area[..DIGITS];
    ParseValue(area);
    DecimalNumber(s);
    U64FitsDigits();
    assert area[DIGITS..NAME_LEN] == area[DIGITS..NAME_LEN + 1][..4] == ".seg";
    assert area[..NAME_LEN] == s + area[DIGITS..NAME_LEN];
    if area[..NAME_LEN] == Name(Parse(area).value) {
      assert s == area[..NAME_LEN][..DIGITS] == Decimal(Parse(area).value, DIGITS);
      NumberDecimal(Parse(area).value, DIGITS);
    }
  }

  /** Names the log never writes that are nevertheless taken for segments 1 to 3. */
  lemma WrappedNames(k: nat)
    requires 0 < k < 4
    ensures var area := Decimal(U64_LIMIT + k, DIGITS) + ".seg\0";
      Parse(area) == Some(k) && area[..NAME_LEN] != Name(k)
  {
    hide Decimal, Number, Accumulate, Parse;
    var n := U64_LIMIT + k;
    var area := Decimal(n, DIGITS) + ".seg\0";
    Pow10At18();
    TwentyDigits();
    NumberDecimal(n, DIGITS);
    assert area[..DIGITS] == Decimal(n, DIGITS);
    assert area[DIGITS..NAME_LEN + 1] == ".seg\0";
    ParseValue(area);
    ParseAcceptsOnlyNames(area);
  }

  lemma TwentyDigits()
    ensures Pow10(DIGITS) == 100000000000000000000
  {
    Pow10At18();
    assert Pow10(20) == 10 * (10 * Pow10(18));
  }

  /** Digits from the right, then the suffix and its terminator. */
  method WriteName(base: u64, out: array<char>)
    requires out.Length > NAME_LEN
    modifies out
    ensures out[..NAME_LEN + 1] == Name(base) + "\0"
    ensures forall k :: NAME_LEN < k < out.Length ==> out[k] == old(out[k])
  {
    hide Decimal, AllDigits, DigitChar;
    var i, v: nat := DIGITS, base;
    ghost var full := Decimal(base, DIGITS);
    assert full[..DIGITS] == full;
    while i > 0
      invariant 0 <= i <= DIGITS && full[..i] == Decimal(v, i)
      invariant forall k :: i <= k < DIGITS ==> out[k] == full[k]
      invariant forall k :: NAME_LEN < k < out.Length ==> out[k] == old(out[k])
    {
      LastDecimal(v, i);
      assert full[..i][i - 1] == full[i - 1] && full[..i][..i - 1] == full[..i - 1];
      i := i - 1;
      out[i] := DigitChar(v % 10);
      v := v / 10;
    }
    out[DIGITS] := '.';
    out[DIGITS + 1] := 's';
    out[DIGITS + 2] := 'e';
    out[DIGITS + 3] := 'g';
    out[DIGITS + 4] := '\0';
  }

  lemma LastDecimal(v: nat, i: nat)
    requires i > 0
    ensures Decimal(v, i)[i - 1] == DigitChar(v % 10) && Decimal(v, i)[..i - 1] == Decimal(v / 10, i - 1)
  {}

  lemma {:induction false} AccumulateStuck(s: string, n: nat)
    requires AllDigits(s) && n <= |s| && Accumulate(s[..n]) == None
    ensures Accumulate(s) == None
    decreases |s|
  {
    if n < |s| {
      assert s[..|s| - 1][..n] == s[..n];
      AccumulateStuck(s[..|s| - 1], n);
    } else {
      assert s[..n] == s;
    }
  }

  /** The parser's loop. The area is never one byte short of a name's NUL. */
  method ParseArea(area: string) returns (r: Option<u64>)
    requires |area| != NAME_LEN
    ensures r == Parse(area)
  {
    if |area| < NAME_LEN {
      return None;
    }
    var v: u64, i := 0, 0;
    var stuck := false;
    while i < DIGITS && !stuck
      invariant 0 <= i <= DIGITS && AllDigits(area[..i])
      invariant Accumulate(area[..i]) == if stuck then None else Some(v)
      decreases !stuck, DIGITS - i
    {
      if area[i] < '0' || area[i] > '9' {
        assert area[..DIGITS][i] == area[i];
        return None;
      }
      assert area[..i + 1][..i] == area[..i];
      if v > (U64_LIMIT - 1) / 10 {
        stuck := true;
      } else {
        v := (v * 10 + DigitOf(area[i])) % U64_LIMIT;
      }
      i := i + 1;
    }
    if stuck {
      if AllDigits(area[..DIGITS]) {
        assert area[..DIGITS][..i] == area[..i];
        AccumulateStuck(area[..DIGITS], i);
      }
      return None;
    }
    if area[DIGITS..NAME_LEN + 1] != ".seg\0" || v == 0 {
      return None;
    }
    r := Some(v);
  }

  // ---- the table ----

  ghost predicate Ascending(s: seq<nat>) {
    forall i, j :: 0 <= i < j < |s| ==> s[i] < s[j]
  }

  ghost function Members(s: seq<nat>): set<nat> {
    set x | x in s
  }

  /** A set has one ascending listing. */
  lemma {:induction false} AscendingUnique(s: seq<nat>, t: seq<nat>)
    requires Ascending(s) && Ascending(t) && Members(s) == Members(t)
    ensures s == t
  {
    if s == [] {
      if t != [] { SomeMember(t); }
    } else {
      assert s[0] in Members(t);
      assert t[0] in Members(s);
      assert s[0] == t[0];
      assert Members(s[1..]) == Members(s) - {s[0]} by { TailMembers(s); }
      assert Members(t[1..]) == Members(t) - {t[0]} by { TailMembers(t); }
      AscendingUnique(s[1..], t[1..]);
      assert s == [s[0]] + s[1..] && t == [t[0]] + t[1..];
    }
  }

  lemma SomeMember(s: seq<nat>)
    requires s != []
    ensures Members(s) != {}
  {
    assert s[0] in Members(s);
  }

  lemma TailMembers(s: seq<nat>)
    requires s != [] && Ascending(s)
    ensures Members(s[1..]) == Members(s) - {s[0]}
  {
    forall x
      ensures x in Members(s[1..]) <==> x in Members(s) && x != s[0]
    {
      if x in s && x != s[0] {
        var k :| 0 <= k < |s| && s[k] == x;
        assert s[1..][k - 1] == x;
      }
    }
  }

  class Table {
    const bases: array<u64>
    var count: nat

    ghost predicate Valid()
      reads this, bases
    {
      bases.Length == MAX_SEGMENTS && count <= MAX_SEGMENTS && Ascending(Bases())
    }

    ghost function Bases(): (s: seq<nat>)
      requires count <= bases.Length
      reads this, bases
      ensures |s| == count
    {
      bases[..count]
    }

    constructor ()
      ensures Valid() && Bases() == [] && fresh(bases)
    {
      bases := new u64[MAX_SEGMENTS];
      count := 0;
    }

    /** Keep the table ascending; refuse, even a base it holds, once it is full. */
    method Insert(base: u64) returns (ok: bool)
      requires Valid()
      modifies this, bases
      ensures Valid()
      ensures ok <==> old(count) < MAX_SEGMENTS
      ensures ok ==> Members(Bases()) == old(Members(Bases())) + {base}
      ensures !ok ==> Bases() == old(Bases())
    {
      if count >= MAX_SEGMENTS {
        return false;
      }
      var i := 0;
      while i < count && bases[i] < base
        invariant 0 <= i <= count
        invariant forall k :: 0 <= k < i ==> bases[k] < base
      {
        i := i + 1;
      }
      if i < count && bases[i] == base {
        assert Bases()[i] in Members(Bases());
        return true;
      }
      ghost var was := Bases();
      OpenSlot(i, base);
      SplicedMembers(was, i, base);
      SplicedAscending(was, i, base);
      ok := true;
    }

    /** Move the entries from i on up by one and put base in the gap. */
    method OpenSlot(i: nat, base: u64)
      requires bases.Length == MAX_SEGMENTS && i <= count < MAX_SEGMENTS
      modifies this`count, bases
      ensures count == old(count) + 1
      ensures Bases() == old(Bases())[..i] + [base as nat] + old(Bases())[i..]
    {
      ghost var was := Bases();
      var j := count;
      while j > i
        invariant i <= j <= count && count == |was|
        invariant forall k :: 0 <= k < j ==> bases[k] == was[k]
        invariant forall k :: j < k <= count ==> bases[k] == was[k - 1]
      {
        bases[j] := bases[j - 1];
        j := j - 1;
      }
      bases[i] := base;
      count := count + 1;
    }

    /** Name the segment a rollover has just created. */
    method Push(base: u64)
      requires Valid() && count < MAX_SEGMENTS
      requires count > 0 ==> bases[count - 1] < base
      modifies this`count, bases
      ensures Valid() && Bases() == old(Bases()) + [base as nat]
    {
      bases[count] := base;
      count := count + 1;
    }

    /** Let go of the oldest n entries, moving the rest down in place. */
    method DropFront(n: nat)
      requires Valid() && n <= count
      modifies this`count, bases
      ensures Valid() && Bases() == old(Bases())[n..]
    {
      ghost var was := Bases();
      var k := 0;
      while k + n < count
        invariant k + n <= count == |was|
        invariant forall i :: 0 <= i < k ==> bases[i] == was[i + n]
        invariant forall i :: k <= i < count ==> bases[i] == was[i]
      {
        bases[k] := bases[k + n];
        k := k + 1;
      }
      count := count - n;
      assert Bases() == was[n..];
    }

    /** Read a directory listing. It fails exactly when it meets a segment's name with the table full. */
    method Load(areas: seq<string>) returns (ok: bool)
      requires Valid()
      requires forall k :: 0 <= k < |areas| ==> |areas[k]| != NAME_LEN
      modifies this, bases
      ensures Valid()
      ensures ok <==> Loads(areas)
      ensures ok ==> Members(Bases()) == Parsed(areas)
      ensures !ok ==> count == MAX_SEGMENTS && Members(Bases()) <= Parsed(areas)
    {
      hide Parse, Parsed, Ascending, Members;
      count := 0;
      NoneYet(Bases());
      var n := 0;
      NoneParsed(areas);
      while n < |areas|
        invariant 0 <= n <= |areas| && Valid()
        invariant Members(Bases()) == Parsed(areas[..n])
        invariant forall k :: 0 <= k < n && Parse(areas[k]).Some? ==> |Parsed(areas[..k])| < MAX_SEGMENTS
      {
        ParsedMore(areas, n);
        MembersSize(Bases());
        var p := ParseArea(areas[n]);
        if p.Some? {
          var done := Insert(p.value);
          if !done {
            return false;
          }
        }
        n := n + 1;
      }
      assert areas[..n] == areas;
      ok := true;
    }
  }

  /** The bases a listing names. */
  ghost function Parsed(areas: seq<string>): set<nat> {
    set k | 0 <= k < |areas| && Parse(areas[k]).Some? :: Parse(areas[k]).value as nat
  }

  /** No segment's name is met once as many are known as the table holds. */
  ghost predicate Loads(areas: seq<string>) {
    forall n :: 0 <= n < |areas| && Parse(areas[n]).Some? ==> |Parsed(areas[..n])| < MAX_SEGMENTS
  }

  /** A directory lists each name once. */
  ghost predicate Once(areas: seq<string>) {
    forall i, j :: 0 <= i < j < |areas| && Parse(areas[i]).Some? && Parse(areas[j]).Some? ==>
      Parse(areas[i]) != Parse(areas[j])
  }

  lemma NoneYet(s: seq<nat>)
    requires s == []
    ensures Ascending(s) && Members(s) == {}
  {}

  lemma NoneParsed(areas: seq<string>)
    ensures Parsed(areas[..0]) == {}
  {}

  lemma ParsedGrows(areas: seq<string>, n: nat)
    requires n < |areas| && Parse(areas[n]).Some?
    ensures |Parsed(areas[..n])| <= |Parsed(areas)|
    ensures Once(areas) ==> |Parsed(areas[..n])| < |Parsed(areas)|
  {
    hide Parse;
    ParsedMore(areas, n);
    var a, x := Parsed(areas[..n]), Parse(areas[n]).value as nat;
    SubsetSize(a, Parsed(areas));
    if Once(areas) {
      assert x !in a;
      SubsetSize(a + {x}, Parsed(areas));
    }
  }

  lemma {:induction false} SubsetSize(a: set<nat>, b: set<nat>)
    requires a <= b
    ensures |a| <= |b|
    decreases a
  {
    if x :| x in a {
      SubsetSize(a - {x}, b - {x});
    }
  }

  /**
   A listing loads if and only if it names no more segments than the table
   holds, whatever else it lists; foreign files do not count.
   */
  lemma LoadsIff(areas: seq<string>)
    ensures Loads(areas) ==> |Parsed(areas)| <= MAX_SEGMENTS
    ensures |Parsed(areas)| < MAX_SEGMENTS ==> Loads(areas)
    ensures Once(areas) ==> (Loads(areas) <==> |Parsed(areas)| <= MAX_SEGMENTS)
  {
    hide Parse, Parsed;
    if Loads(areas) { LoadedSize(areas, |areas|); }
    forall n | 0 <= n < |areas| && Parse(areas[n]).Some?
      ensures |Parsed(areas[..n])| <= |Parsed(areas)| && (Once(areas) ==> |Parsed(areas[..n])| < |Parsed(areas)|)
    {
      ParsedGrows(areas, n);
    }
  }

  lemma {:induction false} LoadedSize(areas: seq<string>, n: nat)
    requires n <= |areas| && Loads(areas)
    ensures |Parsed(areas[..n])| <= MAX_SEGMENTS && Parsed(areas[..|areas|]) == Parsed(areas)
    decreases n
  {
    hide Parse, Parsed;
    assert areas[..|areas|] == areas;
    if n == 0 {
      NoneParsed(areas);
    } else {
      LoadedSize(areas, n - 1);
      ParsedMore(areas, n - 1);
    }
  }

  /** With the table full, even a name it already has is refused. */
  lemma FullRefusesRepeat(areas: seq<string>, again: string)
    requires |Parsed(areas)| == MAX_SEGMENTS && Parse(again).Some?
    ensures !Loads(areas + [again])
  {
    hide Parse, Parsed;
    var all := areas + [again];
    assert all[..|areas|] == areas && all[|areas|] == again;
  }

  lemma ParsedMore(areas: seq<string>, n: nat)
    requires n < |areas|
    ensures Parsed(areas[..n + 1]) == Parsed(areas[..n])
      + (if Parse(areas[n]).Some? then {Parse(areas[n]).value as nat} else {})
    ensures Parsed(areas[..n + 1]) <= Parsed(areas)
    ensures Parsed(areas[..n]) <= Parsed(areas)
  {
    hide Parse;
    var a, b := areas[..n], areas[..n + 1];
    assert forall k :: 0 <= k < n ==> a[k] == b[k] == areas[k];
    assert b[n] == areas[n];
  }

  lemma SplicedMembers(s: seq<nat>, i: nat, x: nat)
    requires i <= |s|
    ensures Members(s[..i] + [x] + s[i..]) == Members(s) + {x}
  {
    var t := s[..i] + [x] + s[i..];
    assert t[i] == x;
    forall y | y in s
      ensures y in t
    {
      var k :| 0 <= k < |s| && s[k] == y;
      assert t[if k < i then k else k + 1] == y;
    }
  }

  lemma SplicedAscending(s: seq<nat>, i: nat, x: nat)
    requires i <= |s| && Ascending(s)
    requires forall k :: 0 <= k < i ==> s[k] < x
    requires i < |s| ==> x < s[i]
    ensures Ascending(s[..i] + [x] + s[i..])
  {}

  lemma {:induction false} MembersSize(s: seq<nat>)
    requires Ascending(s)
    ensures |Members(s)| == |s|
  {
    if s != [] {
      MembersSize(s[1..]);
      TailMembers(s);
      assert s[0] in Members(s);
    }
  }

  /**
   Listings that agree on the segment names, in whatever order, repeated or
   mixed with whatever other files, load the same table.
   */
  lemma LoadOrderFree(s: seq<nat>, t: seq<nat>, areas: seq<string>, others: seq<string>)
    requires Ascending(s) && Members(s) == Parsed(areas)
    requires Ascending(t) && Members(t) == Parsed(others)
    requires forall a :: Parse(a).Some? ==> (a in areas <==> a in others)
    ensures s == t
  {
    hide Parse;
    forall x
      ensures x in Parsed(areas) <==> x in Parsed(others)
    {
      if x in Parsed(areas) {
        var k :| 0 <= k < |areas| && Parse(areas[k]).Some? && Parse(areas[k]).value as nat == x;
        assert areas[k] in others;
      }
      if x in Parsed(others) {
        var k :| 0 <= k < |others| && Parse(others[k]).Some? && Parse(others[k]).value as nat == x;
        assert others[k] in areas;
      }
    }
    AscendingUnique(s, t);
  }
}
