/**
  Instance names: how the agent builds and checks them, and how the web client parses them
  back and picks the number of the next instance.
 */
module Names {
  import opened Common
  import opened Paths

  const INT_MAX := 0x7FFF_FFFF

  predicate IsDigit(c: char) {
    '0' <= c <= '9'
  }

  predicate Digits(s: string) {
    s != "" && forall i | 0 <= i < |s| :: IsDigit(s[i])
  }

  // ---------------------------------------------------------------- printing

  /** The invariant decimal form of a number. */
  function Decimal(n: nat): (s: string)
    ensures Digits(s)
  {
    if n < 10 then ['0' + (n as char)] else Decimal(n / 10) + ['0' + ((n % 10) as char)]
  }

  function InstanceName(prefix: string, n: nat): string {
    prefix + "-" + Decimal(n)
  }

  // ---------------------------------------------------------------- parsing

  function Value(s: string): nat
    requires forall i | 0 <= i < |s| :: IsDigit(s[i])
  {
    if s == "" then 0
    else
      assert IsDigit(s[|s| - 1]);
      Value(s[..|s| - 1]) * 10 + (s[|s| - 1] - '0') as nat
  }

  predicate IsWhite(c: char) {
    c == ' ' || '\t' <= c <= '\r'
  }

  function TrimLeft(s: string): string {
    if s != "" && IsWhite(s[0]) then TrimLeft(s[1..]) else s
  }

  function TrimRight(s: string): string {
    if s != "" && IsWhite(s[|s| - 1]) then TrimRight(s[..|s| - 1]) else s
  }

  /** int.TryParse with its default style: white space around, a sign, digits, 32 bits. */
  function TryParse(s: string): Option<int> {
    var t := TrimRight(TrimLeft(s));
    var negative := t != "" && t[0] == '-';
    var digits := if t != "" && (t[0] == '-' || t[0] == '+') then t[1..] else t;
    if !Digits(digits) then None
    else
      var v: int := if negative then 0 - Value(digits) else Value(digits);
      if -INT_MAX - 1 <= v <= INT_MAX then Some(v) else None
  }

  /** name.Split('-')[^1]. */
  function LastPart(name: string): string {
    if name == "" then ""
    else if name[|name| - 1] == '-' then ""
    else LastPart(name[..|name| - 1]) + [name[|name| - 1]]
  }

  /** The number an instance name ends in, 0 if none. */
  function ParseInstanceNumber(name: string): int {
    match TryParse(LastPart(name))
    case Some(n) => n
    case None => 0
  }

  /** The characters of a number with the white space around it. */
  predicate IsNumberChar(c: char) {
    IsDigit(c) || c == '-' || c == '+' || IsWhite(c)
  }

  lemma {:induction false} TrimmedLeft(s: string)
    ensures forall c | c in TrimLeft(s) :: c in s
    ensures forall c | c in s && !IsWhite(c) :: c in TrimLeft(s)
  {
    if s != "" && IsWhite(s[0]) {
      assert s == [s[0]] + s[1..];
      TrimmedLeft(s[1..]);
    }
  }

  lemma {:induction false} TrimmedRight(s: string)
    ensures forall c | c in TrimRight(s) :: c in s
    ensures forall c | c in s && !IsWhite(c) :: c in TrimRight(s)
  {
    if s != "" && IsWhite(s[|s| - 1]) {
      assert s == s[..|s| - 1] + [s[|s| - 1]];
      TrimmedRight(s[..|s| - 1]);
    }
  }

  predicate AllWhite(s: string) {
    forall i | 0 <= i < |s| :: IsWhite(s[i])
  }

  lemma {:induction false} TrimLeftOf(w: string, t: string)
    requires AllWhite(w) && (t != "" ==> !IsWhite(t[0]))
    ensures TrimLeft(w + t) == t
  {
    if w == "" {
      assert w + t == t;
    } else {
      assert (w + t)[0] == w[0] && (w + t)[1..] == w[1..] + t;
      TrimLeftOf(w[1..], t);
    }
  }

  lemma {:induction false} TrimRightOf(t: string, w: string)
    requires AllWhite(w) && (t != "" ==> !IsWhite(t[|t| - 1]))
    ensures TrimRight(t + w) == t
  {
    if w == "" {
      assert t + w == t;
    } else {
      var s := t + w;
      assert s[|s| - 1] == w[|w| - 1] && s[..|s| - 1] == t + w[..|w| - 1];
      TrimRightOf(t, w[..|w| - 1]);
    }
  }

  /** The 32-bit number that sign and digits stand for. */
  function Signed(sign: string, digits: string): Option<int>
    requires Digits(digits)
  {
    var v: int := if sign == "-" then 0 - Value(digits) else Value(digits);
    if -2147483648 <= v <= 2147483647 then Some(v) else None
  }

  /** White space, a sign or none, digits, white space: parsed as the number, if it has 32 bits. */
  lemma NumberParses(before: string, sign: string, digits: string, after: string)
    requires AllWhite(before) && AllWhite(after) && Digits(digits) && sign in {"", "-", "+"}
    ensures TryParse(before + (sign + digits + after)) == Signed(sign, digits)
  {
    var t := sign + digits;
    assert t[|t| - 1] == digits[|digits| - 1] && IsDigit(digits[|digits| - 1]);
    assert IsDigit(digits[0]) && t[0] == if sign == "" then digits[0] else sign[0];
    TrimLeftOf(before, t + after);
    TrimRightOf(t, after);
    assert sign != "" ==> t[1..] == digits;
    assert sign == "" ==> t == digits;
  }

  /** What is parsed has a digit, and nothing but digits, a sign and white space. */
  lemma ParsedIsNumber(s: string)
    requires TryParse(s).Some?
    ensures exists c :: c in s && IsDigit(c)
    ensures forall c | c in s :: IsNumberChar(c)
  {
    var t := TrimRight(TrimLeft(s));
    TrimmedLeft(s);
    TrimmedRight(TrimLeft(s));
    var digits := if t[0] == '-' || t[0] == '+' then t[1..] else t;
    assert digits[0] in t;
    forall c | c in s
      ensures IsNumberChar(c)
    {
      if !IsWhite(c) {
        var i :| 0 <= i < |t| && t[i] == c;
        if digits != t && i > 0 {
          assert digits[i - 1] == c;
        }
      }
    }
  }

  /** A name whose last part is not a number counts as 0; "Default" is one. */
  lemma NoNumber(name: string)
    ensures (forall c | c in LastPart(name) :: !IsDigit(c)) ==> ParseInstanceNumber(name) == 0
    ensures (exists c :: c in LastPart(name) && !IsNumberChar(c)) ==> ParseInstanceNumber(name) == 0
    ensures ParseInstanceNumber("Default") == 0
  {
    if TryParse(LastPart(name)).Some? {
      ParsedIsNumber(LastPart(name));
    }
    if TryParse(LastPart("Default")).Some? {
      ParsedIsNumber(LastPart("Default"));
      WholeIsLast("Default");
    }
  }

  lemma {:induction false} WholeIsLast(s: string)
    requires '-' !in s
    ensures LastPart(s) == s
  {
    if s != "" {
      assert s[|s| - 1] in s;
      WholeIsLast(s[..|s| - 1]);
    }
  }

  lemma {:induction false} ValueOfDecimal(n: nat)
    ensures Value(Decimal(n)) == n
    decreases n
  {
    if n >= 10 {
      ValueOfDecimal(n / 10);
      var d := Decimal(n);
      assert d[..|d| - 1] == Decimal(n / 10);
    }
  }

  /** The decimal form has no leading zero, so it is the only one with its value. */
  lemma {:induction false} DecimalIsCanonical(n: nat)
    ensures Decimal(n)[0] == '0' <==> n == 0
    ensures n == 0 ==> Decimal(n) == "0"
    decreases n
  {
    if n >= 10 {
      DecimalIsCanonical(n / 10);
    }
  }

  /** What the agent appends to prefix and hyphen is the number in its canonical form. */
  lemma BuiltName(prefix: string, n: nat)
    ensures var name := InstanceName(prefix, n);
            |name| > |prefix| + 1 && name[..|prefix|] == prefix && name[|prefix|] == '-' &&
            Digits(name[|prefix| + 1..]) && Value(name[|prefix| + 1..]) == n &&
            (name[|prefix| + 1] == '0' <==> n == 0) && (n == 0 ==> |name| == |prefix| + 2)
  {
    assert InstanceName(prefix, n)[|prefix| + 1..] == Decimal(n);
    ValueOfDecimal(n);
    DecimalIsCanonical(n);
  }

  lemma {:induction false} LastPartOf(x: string, t: string)
    requires '-' !in t
    ensures LastPart(x + "-" + t) == t
    decreases |t|
  {
    var s := x + "-" + t;
    if t != "" {
      var init, c := t[..|t| - 1], t[|t| - 1];
      assert t == init + [c];
      assert s[..|s| - 1] == x + "-" + init && s[|s| - 1] == c;
      assert c in t;
      LastPartOf(x, init);
    }
  }

  lemma TryParseDigits(s: string)
    requires Digits(s)
    ensures TryParse(s) == if Value(s) <= INT_MAX then Some(Value(s)) else None
  {
    assert TrimLeft(s) == s && TrimRight(s) == s;
  }

  /** Parsing what was printed: the number itself for every prefix, 0 when it exceeds 32 bits. */
  lemma NameRoundTrip(prefix: string, n: nat)
    ensures ParseInstanceNumber(InstanceName(prefix, n)) == if n <= 2147483647 then n else 0
  {
    var d := Decimal(n);
    assert '-' !in d;
    LastPartOf(prefix, d);
    ValueOfDecimal(n);
    TryParseDigits(d);
  }

  /** The same for a name that differs in letter case only. */
  lemma NameRoundTripFolded(prefix: string, n: nat, name: string)
    requires Fold(name) == Fold(InstanceName(prefix, n))
    ensures ParseInstanceNumber(name) == if n <= INT_MAX then n else 0
  {
    var tail := name[|prefix| + 1..];
    assert Fold(name)[|prefix| + 1..] == Fold(tail);
    assert InstanceName(prefix, n)[|prefix| + 1..] == Decimal(n);
    assert Fold(InstanceName(prefix, n))[|prefix| + 1..] == Fold(Decimal(n));
    FoldedDigits(tail, Decimal(n));
    HyphenStays(name, InstanceName(prefix, n), |prefix|);
    assert name == InstanceName(name[..|prefix|], n);
    NameRoundTrip(name[..|prefix|], n);
  }

  lemma FoldedDigits(s: string, d: string)
    requires Digits(d) && Fold(s) == Fold(d)
    ensures s == d
  {
    forall i | 0 <= i < |s|
      ensures s[i] == d[i]
    {
      assert Fold(s)[i] == Fold(d)[i] && IsDigit(d[i]);
    }
  }

  lemma HyphenStays(s: string, t: string, i: nat)
    requires i < |t| && t[i] == '-' && Fold(s) == Fold(t)
    ensures i < |s| && s[i] == '-'
  {
    assert Fold(s)[i] == Fold(t)[i];
  }

  // ---------------------------------------------------------------- the next number

  /** The greatest positive number among the names, 0 if there is none. */
  function MaxNumber(names: seq<string>): (m: nat)
    ensures m <= INT_MAX
    ensures forall i | 0 <= i < |names| :: ParseInstanceNumber(names[i]) <= m
    ensures m > 0 ==> exists i :: 0 <= i < |names| && ParseInstanceNumber(names[i]) == m
  {
    if names == [] then 0
    else
      var n, rest := ParseInstanceNumber(names[0]), MaxNumber(names[1..]);
      assert n <= INT_MAX;
      if n > rest then n else
        assert forall i | 0 < i < |names| :: names[i] == names[1..][i - 1];
        rest
  }

  /** 32-bit addition, unchecked. */
  function Wrap(n: int): int {
    (n + INT_MAX + 1) % (2 * (INT_MAX + 1)) - INT_MAX - 1
  }

  lemma WrapOnce(m: nat)
    requires m <= INT_MAX
    ensures Wrap(m + 1) == if m < INT_MAX then m + 1 else -INT_MAX - 1
  {
  }

  /** HandelAppController.Create: the number it asks the agent to create, given the listing. */
  method PickNumber(listing: Option<seq<string>>) returns (nextNumber: int)
    ensures nextNumber == Next(listing)
  {
    nextNumber := 1;
    if listing.Some? && |listing.value| > 0 {
      var maxNum := MaxNumber(listing.value);
      nextNumber := Wrap(maxNum + 1);
    }
  }

  function Next(listing: Option<seq<string>>): int {
    match listing
    case Some(names) => if names == [] then 1 else Wrap(MaxNumber(names) + 1)
    case None => 1
  }

  /**
    The number picked names no listed instance, whatever its prefix and letter case, and it
    is a number the agent accepts exactly when no listed name ends in 2147483647.
   */
  lemma PickedIsFresh(names: seq<string>, prefix: string)
    ensures Next(Some(names)) > 0 <==> forall i | 0 <= i < |names| :: ParseInstanceNumber(names[i]) != INT_MAX
    ensures Next(Some(names)) > 0 ==>
              forall i | 0 <= i < |names| :: Fold(names[i]) != Fold(InstanceName(prefix, Next(Some(names))))
  {
    var m := MaxNumber(names);
    WrapOnce(m);
    if names != [] && Next(Some(names)) > 0 {
      forall i | 0 <= i < |names|
        ensures Fold(names[i]) != Fold(InstanceName(prefix, m + 1))
      {
        if Fold(names[i]) == Fold(InstanceName(prefix, m + 1)) {
          NameRoundTripFolded(prefix, m + 1, names[i]);
        }
      }
    }
  }

  /** It is the least number above all listed ones; 1 for an empty or failed listing. */
  lemma PickedIsLeast(names: seq<string>)
    ensures Next(None) == 1 && Next(Some([])) == 1
    ensures Next(Some(names)) > 0 ==>
              (forall i | 0 <= i < |names| :: ParseInstanceNumber(names[i]) < Next(Some(names))) &&
              (Next(Some(names)) == 1 ||
               exists i :: 0 <= i < |names| && ParseInstanceNumber(names[i]) == Next(Some(names)) - 1)
  {
    WrapOnce(MaxNumber(names));
  }

  // ---------------------------------------------------------------- listing

  /** The search pattern prefix-*, case-insensitive. */
  predicate MatchesPattern(prefix: string, c: string) {
    Fold(prefix + "-") <= Fold(c)
  }

  lemma FoldPrefix(s: string, n: nat)
    requires n <= |s|
    ensures Fold(s) == Fold(s[..n]) + Fold(s[n..])
  {
    assert s == s[..n] + s[n..];
    FoldConcat(s[..n], s[n..]);
  }

  /** A name is listed exactly when it is, up to case, the prefix, a hyphen and anything. */
  lemma MatchesExactly(prefix: string, c: string)
    ensures MatchesPattern(prefix, c) <==> exists t :: Fold(c) == Fold(prefix) + "-" + Fold(t)
  {
    var n := |prefix| + 1;
    FoldConcat(prefix, "-");
    assert Fold(prefix + "-") == Fold(prefix) + "-";
    if MatchesPattern(prefix, c) {
      FoldPrefix(c, n);
      assert Fold(c)[..n] == Fold(c[..n]) == Fold(prefix + "-");
    }
  }

  // ---------------------------------------------------------------- validation

  /** `\d` of .NET regular expressions: ASCII digits and the digits of other scripts. */
  ghost predicate DigitClass(nd: char -> bool) {
    forall c | c < 128 as char :: nd(c) <==> IsDigit(c)
  }

  /** The regular expression ^prefix-\d+$, where $ also matches before one final line feed. */
  predicate ValidName(name: string, prefix: string, nd: char -> bool) {
    prefix + "-" <= name &&
    var t := name[|prefix| + 1..];
    var body := BeforeLineFeed(t);
    body != "" && forall i | 0 <= i < |body| :: nd(body[i])
  }

  /** Among ASCII names the valid ones are the prefix, a hyphen and digits, and perhaps a line feed. */
  lemma ValidNameExactly(name: string, prefix: string, nd: char -> bool)
    requires DigitClass(nd) && forall c | c in name :: c < 128 as char
    ensures ValidName(name, prefix, nd) <==>
            exists d :: Digits(d) && (name == prefix + "-" + d || name == prefix + "-" + d + "\n")
  {
    if ValidName(name, prefix, nd) {
      var t := name[|prefix| + 1..];
      var d := BeforeLineFeed(t);
      assert name == prefix + "-" + t;
      forall i | 0 <= i < |d|
        ensures IsDigit(d[i])
      {
        assert d[i] == name[|prefix| + 1 + i] && d[i] in name;
        assert nd(d[i]);
      }
      assert Digits(d);
      if t[|t| - 1] == '\n' {
        assert t == d + "\n";
        assert name == prefix + "-" + d + "\n";
      }
    }
    forall d | Digits(d) && (name == prefix + "-" + d || name == prefix + "-" + d + "\n")
      ensures ValidName(name, prefix, nd)
    {
      DigitsAreValid(name, prefix, d, nd);
    }
  }

  lemma DigitsAreValid(name: string, prefix: string, d: string, nd: char -> bool)
    requires DigitClass(nd) && Digits(d)
    requires name == prefix + "-" + d || name == prefix + "-" + d + "\n"
    ensures ValidName(name, prefix, nd)
  {
    var t := name[|prefix| + 1..];
    assert t == d || t == d + "\n";
    assert IsDigit(d[|d| - 1]);
    assert prefix + "-" <= name;
  }

  /** What follows the prefix of a valid name can stand in a path without changing its shape. */
  lemma ValidTail(name: string, prefix: string, nd: char -> bool)
    requires DigitClass(nd) && ValidName(name, prefix, nd)
    ensures name == prefix + "-" + name[|prefix| + 1..]
    ensures Inert(name[|prefix| + 1..]) && Fold(name[|prefix| + 1..]) == name[|prefix| + 1..]
  {
    var t := name[|prefix| + 1..];
    assert name == (prefix + "-") + t;
    forall i | 0 <= i < |t|
      ensures nd(t[i]) || t[i] == '\n'
    {
    }
  }

  /** Valid names that agree up to letter case are equal. */
  lemma ValidNamesFold(a: string, b: string, prefix: string, nd: char -> bool)
    requires DigitClass(nd) && ValidName(a, prefix, nd) && ValidName(b, prefix, nd) && Fold(a) == Fold(b)
    ensures a == b
  {
    ValidTail(a, prefix, nd);
    ValidTail(b, prefix, nd);
    FoldConcat(prefix + "-", a[|prefix| + 1..]);
    FoldConcat(prefix + "-", b[|prefix| + 1..]);
    assert Fold(a)[|prefix| + 1..] == Fold(a[|prefix| + 1..]);
    assert Fold(b)[|prefix| + 1..] == Fold(b[|prefix| + 1..]);
  }

  /** Every name the agent builds for a number is valid. */
  lemma BuiltNameIsValid(prefix: string, n: nat, nd: char -> bool)
    requires DigitClass(nd)
    ensures ValidName(InstanceName(prefix, n), prefix, nd)
  {
    var name, d := InstanceName(prefix, n), Decimal(n);
    assert name[|prefix| + 1..] == d;
    assert IsDigit(d[|d| - 1]);
    forall i | 0 <= i < |d| ensures nd(d[i]) {
      assert IsDigit(d[i]);
    }
  }
}
