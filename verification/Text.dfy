// Strings as the Go code uses them: slash-separated resource names, decimal
// formatting and the byte order of sort.Strings (equal to code point order on
// the valid UTF-8 that protobuf strings carry).

module Text {

  /** Index of the last slash, or -1. */
  function LastSlash(s: string): (i: int)
    ensures -1 <= i < |s|
    ensures i >= 0 ==> s[i] == '/'
    ensures forall j :: i < j < |s| ==> s[j] != '/'
  {
    if |s| == 0 then -1
    else if s[|s| - 1] == '/' then |s| - 1
    else LastSlash(s[..|s| - 1])
  }

  /** What follows the last slash; the whole name when there is none. */
  function LastSegment(s: string): (r: string)
    ensures '/' !in r
    ensures '/' !in s ==> r == s
  {
    s[LastSlash(s) + 1..]
  }

  lemma LastSegmentOf(prefix: string, id: string)
    requires '/' !in id
    ensures LastSegment(prefix + "/" + id) == id
  {
    var s := prefix + "/" + id;
    assert s[|prefix|] == '/';
    assert forall j :: |prefix| < j < |s| ==> s[j] == id[j - |prefix| - 1];
  }

  /** Index of the first occurrence of c, or |s|. */
  function IndexOf(s: string, c: char): (i: nat)
    ensures i <= |s|
    ensures i < |s| ==> s[i] == c
    ensures forall j :: 0 <= j < i ==> s[j] != c
  {
    if |s| == 0 || s[0] == c then 0 else 1 + IndexOf(s[1..], c)
  }

  /** strings.Split on a one-character separator. */
  function Split(s: string, c: char): (parts: seq<string>)
    ensures |parts| >= 1
    ensures forall k :: 0 <= k < |parts| ==> c !in parts[k]
    decreases |s|
  {
    var i := IndexOf(s, c);
    if i == |s| then [s] else [s[..i]] + Split(s[i + 1..], c)
  }

  function Join(parts: seq<string>, c: char): string {
    if |parts| == 0 then ""
    else if |parts| == 1 then parts[0]
    else parts[0] + [c] + Join(parts[1..], c)
  }

  lemma JoinCons(a: string, parts: seq<string>, c: char)
    requires |parts| >= 1
    ensures Join([a] + parts, c) == a + [c] + Join(parts, c)
  {
    assert ([a] + parts)[1..] == parts;
  }

  lemma {:induction false} JoinSplit(s: string, c: char)
    ensures Join(Split(s, c), c) == s
    decreases |s|
  {
    var i := IndexOf(s, c);
    if i == |s| {
      assert Split(s, c) == [s];
    } else {
      var rest, parts := s[i + 1..], Split(s[i + 1..], c);
      JoinSplit(rest, c);
      JoinCons(s[..i], parts, c);
      assert s == s[..i] + [c] + rest;
    }
  }

  lemma {:induction false} SplitJoin(parts: seq<string>, c: char)
    requires |parts| >= 1
    requires forall k :: 0 <= k < |parts| ==> c !in parts[k]
    ensures Split(Join(parts, c), c) == parts
    decreases |parts|
  {
    var s := Join(parts, c);
    if |parts| > 1 {
      assert s[|parts[0]|] == c;
      assert forall j :: 0 <= j < |parts[0]| ==> s[j] == parts[0][j];
      assert IndexOf(s, c) == |parts[0]|;
      assert s[|parts[0]| + 1..] == Join(parts[1..], c);
      assert s[..|parts[0]|] == parts[0];
      SplitJoin(parts[1..], c);
    } else {
      assert IndexOf(s, c) == |s|;
    }
  }

  // ----- decimal formatting -----

  function Digit(d: int): char
    requires 0 <= d < 10
  {
    (d + 48) as char
  }

  function Digits(n: nat): (s: string)
    ensures |s| >= 1
    ensures '/' !in s && '.' !in s
  {
    if n < 10 then [Digit(n)] else Digits(n / 10) + [Digit(n % 10)]
  }

  /** strconv.FormatInt in base ten. */
  function FormatInt(n: int): string {
    if n < 0 then "-" + Digits(-n) else Digits(n)
  }

  lemma {:induction false} DigitsInjective(a: nat, b: nat)
    requires Digits(a) == Digits(b)
    ensures a == b
    decreases a + b
  {
    var s := Digits(a);
    if a >= 10 && b >= 10 {
      assert Digits(a / 10) == s[..|s| - 1] == Digits(b / 10);
      DigitsInjective(a / 10, b / 10);
      assert Digit(a % 10) == s[|s| - 1] == Digit(b % 10);
    } else {
      assert s[0] == Digits(a)[0];
    }
  }

  function DigitValue(c: char): int {
    c as int - '0' as int
  }

  /** What a string of decimal digits stands for, most significant first. */
  function Numeral(s: string): int {
    if s == "" then 0 else 10 * Numeral(s[..|s| - 1]) + DigitValue(s[|s| - 1])
  }

  predicate Decimal(s: string) {
    forall k :: 0 <= k < |s| ==> '0' <= s[k] <= '9'
  }

  lemma {:induction false} DigitsRead(n: nat)
    ensures Decimal(Digits(n)) && Numeral(Digits(n)) == n
    ensures Digits(n)[0] == '0' ==> n == 0 && Digits(n) == "0"
    decreases n
  {
    if n >= 10 {
      DigitsRead(n / 10);
      var front := Digits(n / 10);
      assert Digits(n)[..|front|] == front;
    } else {
      assert [Digit(n)][..0] == "";
    }
  }

  /** A formatted number is its decimal numeral: digits only after at most one
      minus sign, with no leading zero, read back as the number. */
  lemma FormatIntReads(n: int)
    ensures var s := FormatInt(n);
            && (n < 0 <==> s[0] == '-')
            && var digits := if n < 0 then s[1..] else s;
            && digits != "" && Decimal(digits) && Numeral(digits) == (if n < 0 then -n else n)
            && (digits[0] == '0' ==> digits == "0")
  {
    DigitsRead(if n < 0 then -n else n);
  }

  // ----- lexicographic order -----

  predicate Less(a: string, b: string) {
    if |b| == 0 then false
    else if |a| == 0 then true
    else a[0] < b[0] || (a[0] == b[0] && Less(a[1..], b[1..]))
  }

  /** One string comes before another when it is a proper beginning of it, or has
      the smaller character at the first place where they differ. */
  ghost predicate Precedes(a: string, b: string) {
    a < b || exists k :: 0 <= k < |a| && k < |b| && a[..k] == b[..k] && a[k] < b[k]
  }

  lemma {:induction false} LessIs(a: string, b: string)
    ensures Less(a, b) <==> Precedes(a, b)
    decreases |a|
  {
    hide Precedes;
    if |a| > 0 && |b| > 0 {
      if a[0] == b[0] {
        LessIs(a[1..], b[1..]);
        SameHead(a, b);
      } else {
        OtherHead(a, b);
      }
    } else {
      NoHead(a, b);
    }
  }

  lemma NoHead(a: string, b: string)
    requires |a| == 0 || |b| == 0
    ensures Precedes(a, b) <==> |a| == 0 && |b| > 0
  {
  }

  lemma OtherHead(a: string, b: string)
    requires |a| > 0 && |b| > 0 && a[0] != b[0]
    ensures Precedes(a, b) <==> a[0] < b[0]
  {
    forall k | 0 < k <= |a| && k <= |b| ensures a[..k] != b[..k] {
      assert a[..k][0] == a[0] && b[..k][0] == b[0];
    }
    assert a[..0] == b[..0];
  }

  lemma SameHead(a: string, b: string)
    requires |a| > 0 && |b| > 0 && a[0] == b[0]
    ensures Precedes(a, b) <==> Precedes(a[1..], b[1..])
  {
    var x, y := a[1..], b[1..];
    assert a == [a[0]] + x && b == [b[0]] + y;
    if k :| 0 <= k < |a| && k < |b| && a[..k] == b[..k] && a[k] < b[k] {
      assert x[..k - 1] == a[..k][1..] && y[..k - 1] == b[..k][1..];
      assert x[k - 1] < y[k - 1];
    }
    if k :| 0 <= k < |x| && k < |y| && x[..k] == y[..k] && x[k] < y[k] {
      assert a[..k + 1] == [a[0]] + x[..k] && b[..k + 1] == [b[0]] + y[..k];
      assert a[k + 1] < b[k + 1];
    }
  }

  lemma LessIrreflexive(a: string)
    ensures !Less(a, a)
  {
  }

  lemma {:induction false} LessTotal(a: string, b: string)
    ensures Less(a, b) || a == b || Less(b, a)
  {
    if |a| > 0 && |b| > 0 && a[0] == b[0] {
      LessTotal(a[1..], b[1..]);
      assert a[1..] == b[1..] ==> a == [a[0]] + a[1..] == b;
    }
  }

  lemma {:induction false} LessTransitive(a: string, b: string, c: string)
    requires Less(a, b) && Less(b, c)
    ensures Less(a, c)
  {
    if |a| > 0 && a[0] == b[0] == c[0] {
      LessTransitive(a[1..], b[1..], c[1..]);
    }
  }

  /** Strictly increasing, so free of repetition. */
  ghost predicate Ascending(s: seq<string>) {
    forall i, j :: 0 <= i < j < |s| ==> Less(s[i], s[j])
  }

  ghost function Elements<T>(s: seq<T>): set<T> {
    set x | x in s
  }

  lemma ElementsSnoc<T>(s: seq<T>, x: T)
    ensures Elements(s + [x]) == Elements(s) + {x}
  {
  }

  /** An ascending sequence is determined by its elements. */
  lemma {:induction false} AscendingUnique(a: seq<string>, b: seq<string>)
    requires Ascending(a) && Ascending(b) && Elements(a) == Elements(b)
    ensures a == b
  {
    NoElements(a);
    NoElements(b);
    if |a| > 0 {
      assert a[0] in Elements(b);
      assert b[0] in Elements(a);
      FirstIsLeast(a, b[0]);
      FirstIsLeast(b, a[0]);
      if a[0] != b[0] {
        LessTransitive(a[0], b[0], a[0]);
        LessIrreflexive(a[0]);
      }
      TailElements(a);
      TailElements(b);
      AscendingUnique(a[1..], b[1..]);
    }
  }

  lemma NoElements<T>(s: seq<T>)
    ensures Elements(s) == {} <==> s == []
  {
    if |s| > 0 {
      assert s[0] in Elements(s);
    }
  }

  lemma FirstIsLeast(a: seq<string>, x: string)
    requires Ascending(a) && x in a
    ensures a[0] == x || Less(a[0], x)
  {
  }

  lemma TailElements(a: seq<string>)
    requires |a| > 0 && Ascending(a)
    ensures Elements(a[1..]) == Elements(a) - {a[0]}
  {
    LessIrreflexive(a[0]);
    assert forall i :: 1 <= i < |a| ==> a[i] == a[1..][i - 1];
    assert a[0] !in a[1..];
  }

  /** Place x in an ascending sequence that does not hold it. */
  method Insert(s: seq<string>, x: string) returns (r: seq<string>)
    requires Ascending(s) && x !in s
    ensures Ascending(r) && Elements(r) == Elements(s) + {x} && |r| == |s| + 1
  {
    var i := 0;
    while i < |s| && Less(s[i], x)
      invariant 0 <= i <= |s|
      invariant forall j :: 0 <= j < i ==> Less(s[j], x)
    {
      i := i + 1;
    }
    r := s[..i] + [x] + s[i..];
    forall j | i <= j < |s| ensures Less(x, s[j]) {
      LessTotal(s[i], x);
      if j > i {
        LessTransitive(x, s[i], s[j]);
      }
    }
    assert s == s[..i] + s[i..];
  }

  /** sort.Strings over the keys of a map, which are distinct. */
  method SortNames(names: set<string>) returns (r: seq<string>)
    ensures Ascending(r) && Elements(r) == names && |r| == |names|
  {
    r := [];
    var rest := names;
    while rest != {}
      invariant rest <= names
      invariant Ascending(r) && Elements(r) == names - rest && |r| == |names| - |rest|
      decreases |rest|
    {
      var x :| x in rest;
      rest := rest - {x};
      assert x !in Elements(r);
      r := Insert(r, x);
    }
  }
}
