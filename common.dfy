/** Values shared by the concepts: optional and fallible results, the opaque
    identifiers handed out by the database's fresh-id source, the blank-string
    test that the actions apply to names, and JavaScript's String(number). */
module Common {

  datatype Option<+T> = None | Some(value: T) {
    function GetOr(default: T): T {
      match this
      case Some(v) => v
      case None => default
    }
  }

  /** An action's outcome: a success payload or one error value. */
  datatype Result<+T, +E> = Ok(value: T) | Err(error: E)

  /** Identifiers produced by the fresh-id source (documents, sessions). */
  type Id = nat

  /** Times are milliseconds since the Unix epoch. */
  type Time = int

  /** The characters that JavaScript's String.prototype.trim removes:
      white space and line terminators. */
  predicate IsJsWhitespace(c: char) {
    c == '\U{9}' || c == '\U{B}' || c == '\U{C}' || c == ' ' ||
    c == '\U{A0}' || c == '\U{FEFF}' || c == '\U{1680}' ||
    ('\U{2000}' <= c <= '\U{200A}') || c == '\U{202F}' || c == '\U{205F}' || c == '\U{3000}' ||
    c == '\U{A}' || c == '\U{D}' || c == '\U{2028}' || c == '\U{2029}'
  }

  /** `!s || s.trim() === ""`: the string is empty or only white space. */
  predicate IsBlank(s: string) {
    forall i :: 0 <= i < |s| ==> IsJsWhitespace(s[i])
  }

  lemma BlankExamples()
    ensures IsBlank("") && IsBlank(" \t\n")
    ensures !IsBlank("a") && !IsBlank(" a ")
  {
    assert !IsJsWhitespace("a"[0]) && !IsJsWhitespace(" a "[1]);
  }

  /** The string with its leading white space removed, as `trimStart()`. */
  function TrimStart(s: string): (t: string)
    ensures |t| <= |s| && t == s[|s| - |t|..]
    ensures |t| > 0 ==> !IsJsWhitespace(t[0])
  {
    if |s| > 0 && IsJsWhitespace(s[0]) then TrimStart(s[1..]) else s
  }

  /** For every string: it is blank exactly when trimming leaves nothing. */
  lemma {:induction false} BlankIffTrimsToEmpty(s: string)
    ensures IsBlank(s) <==> TrimStart(s) == ""
  {
    if |s| > 0 && IsJsWhitespace(s[0]) {
      BlankIffTrimsToEmpty(s[1..]);
      assert forall i :: 0 < i < |s| ==> s[i] == s[1..][i - 1];
    }
  }

  function Digit(d: int): (c: char)
    requires 0 <= d < 10
    ensures '0' <= c <= '9'
  {
    (48 + d) as char
  }

  /** The decimal numeral of a natural number, most significant digit first. */
  function NatDigits(n: nat): (s: string)
    ensures |s| >= 1
    ensures forall i :: 0 <= i < |s| ==> '0' <= s[i] <= '9'
    decreases n
  {
    if n < 10 then [Digit(n)] else NatDigits(n / 10) + [Digit(n % 10)]
  }

  /** JavaScript's String(n) for an integral number. */
  function DecimalString(n: int): (s: string)
    ensures |s| >= 1
  {
    if n < 0 then "-" + NatDigits(-n) else NatDigits(n)
  }

  lemma {:induction false} NatDigitsInjective(a: nat, b: nat)
    requires NatDigits(a) == NatDigits(b)
    ensures a == b
    decreases a
  {
    var sa, sb := NatDigits(a), NatDigits(b);
    if a < 10 && b < 10 {
      assert Digit(a) == sa[0] == sb[0] == Digit(b);
    } else if a < 10 || b < 10 {
      assert false;
    } else {
      var pa, pb := NatDigits(a / 10), NatDigits(b / 10);
      assert sa == pa + [Digit(a % 10)];
      assert sb == pb + [Digit(b % 10)];
      assert |pa| == |pb|;
      assert Digit(a % 10) == sa[|sa| - 1] == sb[|sb| - 1] == Digit(b % 10);
      assert pa == sa[..|pa|] == sb[..|pb|] == pb;
      NatDigitsInjective(a / 10, b / 10);
    }
  }

  /** Only the numeral of a negative number starts with a minus sign. */
  lemma LeadingMinus(n: int)
    ensures DecimalString(n)[0] == '-' <==> n < 0
  {
    if n >= 0 {
      assert '0' <= NatDigits(n)[0] <= '9';
    }
  }

  /** Distinct numeric ids give distinct strings. */
  lemma {:induction false} DecimalStringInjective(a: int, b: int)
    requires DecimalString(a) == DecimalString(b)
    ensures a == b
  {
    var sa, sb := DecimalString(a), DecimalString(b);
    if a < 0 && b < 0 {
      assert NatDigits(-a) == sa[1..] == sb[1..] == NatDigits(-b);
      NatDigitsInjective(-a, -b);
    } else if a < 0 || b < 0 {
      LeadingMinus(a);
      LeadingMinus(b);
      assert false;
    } else {
      NatDigitsInjective(a, b);
    }
  }

  // ------------------------------------------------ sequences as collections

  /** The position of the first document matching a query, or |s| when none
      does: what `findOne` finds in a collection read in its natural order. */
  function FirstIndex<T>(s: seq<T>, p: T -> bool): (k: nat)
    ensures k <= |s|
    ensures k < |s| ==> p(s[k])
    ensures forall j :: 0 <= j < k ==> !p(s[j])
    decreases |s|
  {
    if s == [] then 0 else if p(s[0]) then 0 else 1 + FirstIndex(s[1..], p)
  }

  /** The documents of a collection that match a query, in collection order. */
  function Filter<T>(s: seq<T>, p: T -> bool): (r: seq<T>)
    ensures |r| <= |s|
    ensures forall i :: 0 <= i < |r| ==> r[i] in s && p(r[i])
    ensures forall i :: 0 <= i < |s| && p(s[i]) ==> s[i] in r
    decreases |s|
  {
    if s == [] then [] else (if p(s[0]) then [s[0]] else []) + Filter(s[1..], p)
  }

  lemma {:induction false} FilterAppend<T>(a: seq<T>, b: seq<T>, p: T -> bool)
    ensures Filter(a + b, p) == Filter(a, p) + Filter(b, p)
    decreases |a|
  {
    if a == [] {
      assert a + b == b;
    } else {
      assert (a + b)[0] == a[0];
      assert (a + b)[1..] == a[1..] + b;
      FilterAppend(a[1..], b, p);
    }
  }

  /** Filtering twice by the same test is filtering once. */
  lemma {:induction false} FilterIdempotent<T>(s: seq<T>, p: T -> bool)
    ensures Filter(Filter(s, p), p) == Filter(s, p)
    decreases |s|
  {
    if s != [] {
      var head := if p(s[0]) then [s[0]] else [];
      FilterAppend(head, Filter(s[1..], p), p);
      FilterIdempotent(s[1..], p);
      if p(s[0]) {
        assert [s[0]][1..] == [];
      }
    }
  }

  /** A filter that every element passes changes nothing. */
  lemma {:induction false} FilterKeepsAll<T>(s: seq<T>, p: T -> bool)
    requires forall i :: 0 <= i < |s| ==> p(s[i])
    ensures Filter(s, p) == s
    decreases |s|
  {
    if s != [] {
      assert p(s[0]);
      FilterKeepsAll(s[1..], p);
      assert [s[0]] + s[1..] == s;
    }
  }

  /** `ok` holds of every pair of documents in collection order. */
  ghost predicate Pairwise<T>(s: seq<T>, ok: (T, T) -> bool) {
    forall i, j :: 0 <= i < j < |s| ==> ok(s[i], s[j])
  }

  /** Filtering keeps the order, so it keeps every pairwise constraint. */
  lemma {:induction false} FilterPairwise<T>(s: seq<T>, p: T -> bool, ok: (T, T) -> bool)
    requires Pairwise(s, ok)
    ensures Pairwise(Filter(s, p), ok)
    decreases |s|
  {
    if s != [] {
      var tail := Filter(s[1..], p);
      assert Pairwise(s[1..], ok) by {
        forall i, j | 0 <= i < j < |s[1..]| ensures ok(s[1..][i], s[1..][j]) {
          assert s[1..][i] == s[i + 1] && s[1..][j] == s[j + 1];
        }
      }
      FilterPairwise(s[1..], p, ok);
      if p(s[0]) {
        var r := [s[0]] + tail;
        forall i, j | 0 <= i < j < |r| ensures ok(r[i], r[j]) {
          if i == 0 {
            assert r[j] == tail[j - 1] && r[j] in s[1..];
            var k :| 0 <= k < |s[1..]| && s[1..][k] == r[j];
            assert s[k + 1] == r[j];
          } else {
            assert r[i] == tail[i - 1] && r[j] == tail[j - 1];
          }
        }
      } else {
        assert Filter(s, p) == [] + tail;
      }
    }
  }
}
