/**
 * Shared vocabulary of the model: optional values, the PHP and JavaScript
 * notions of "empty" and "blank", substring search as used by SQL LIKE,
 * filtering and the descending ordering used by every ORDER BY ... DESC.
 */
module Common {

  datatype Option<+T> = None | Some(value: T)
  {
    /** PHP's `??` / JavaScript's `??`: fall back only when the value is absent. */
    function GetOr(default: T): (r: T)
      ensures this.Some? ==> r == this.value
      ensures this.None? ==> r == default
    {
      match this
      case Some(v) => v
      case None => default
    }
  }

  /** The outcome of an operation that can fail: a value, or the error it reports. */
  datatype Result<+T, +E> = Ok(value: T) | Err(error: E)

  /** PHP `empty()` on a nullable string: null, "" and "0" are all empty. */
  predicate PhpEmpty(s: Option<string>)
  {
    s.None? || s.value == "" || s.value == "0"
  }

  /** PHP truthiness of a nullable string, as in `if ($notes)`. */
  predicate PhpTruthy(s: Option<string>)
  {
    !PhpEmpty(s)
  }

  /** JavaScript truthiness of an optional string: `undefined`, `null` and ""
      are falsy, every other string (even "0") is truthy. */
  predicate JsTruthy(s: Option<string>)
  {
    s.Some? && s.value != ""
  }

  /** PHP string interpolation of a nullable value: null prints as "". */
  function Str(s: Option<string>): string
  {
    s.GetOr("")
  }

  predicate StartsWith(s: string, prefix: string)
  {
    |prefix| <= |s| && s[..|prefix|] == prefix
  }

  /** `term` occurs in `s` at some position: the meaning of `LIKE '%term%'`. */
  predicate Contains(s: string, term: string)
    decreases |s|
  {
    StartsWith(s, term) || (|s| > 0 && Contains(s[1..], term))
  }

  /** `term` appears in `s` starting at index `k`. */
  predicate OccursAt(s: string, term: string, k: nat)
  {
    k + |term| <= |s| && s[k..k + |term|] == term
  }

  lemma {:induction false} ContainsAt(s: string, term: string, k: nat)
    requires OccursAt(s, term, k)
    ensures Contains(s, term)
    decreases k
  {
    if k > 0 {
      assert s[1..][k - 1..k - 1 + |term|] == s[k..k + |term|];
      ContainsAt(s[1..], term, k - 1);
    }
  }

  lemma {:induction false} ContainsWitness(s: string, term: string) returns (k: nat)
    requires Contains(s, term)
    ensures OccursAt(s, term, k)
    decreases |s|
  {
    if StartsWith(s, term) {
      k := 0;
    } else {
      var j := ContainsWitness(s[1..], term);
      assert s[1..][j..j + |term|] == s[j + 1..j + 1 + |term|];
      k := j + 1;
    }
  }

  /** `Contains` is substring search. */
  lemma ContainsIff(s: string, term: string)
    ensures Contains(s, term) <==> exists k: nat :: OccursAt(s, term, k)
  {
    if Contains(s, term) {
      var k := ContainsWitness(s, term);
    }
    if exists k: nat :: OccursAt(s, term, k) {
      var k: nat :| OccursAt(s, term, k);
      ContainsAt(s, term, k);
    }
  }

  /**
   * JavaScript's white space and line terminators: what `trim()` removes and
   * what the regular-expression class `\s` matches. Besides the six ASCII
   * characters these are no-break space, the byte order mark, the line and
   * paragraph separators and the space separators of Unicode.
   */
  predicate IsWhitespace(c: char)
  {
    c == ' ' || c == '\t' || c == '\n' || c == '\r' || c == '\U{000B}' || c == '\U{000C}' ||
    c == '\U{00A0}' || c == '\U{FEFF}' || c == '\U{1680}' || '\U{2000}' <= c <= '\U{200A}' ||
    c == '\U{2028}' || c == '\U{2029}' || c == '\U{202F}' || c == '\U{205F}' || c == '\U{3000}'
  }

  /** `s.trim()` is the empty string. */
  predicate IsBlank(s: string)
  {
    forall i :: 0 <= i < |s| ==> IsWhitespace(s[i])
  }

  predicate IsDigit(c: char)
  {
    '0' <= c <= '9'
  }

  predicate AllDigits(s: string)
  {
    forall i :: 0 <= i < |s| ==> IsDigit(s[i])
  }

  /** The elements of `s` satisfying `p`, in their original order. */
  function Filter<T(!new)>(s: seq<T>, p: T -> bool): (r: seq<T>)
    ensures |r| <= |s|
    ensures forall x :: x in r <==> x in s && p(x)
    ensures forall x :: multiset(r)[x] == if p(x) then multiset(s)[x] else 0
  {
    if s == [] then []
    else
      var rest := Filter(s[1..], p);
      assert s == [s[0]] + s[1..];
      if p(s[0]) then [s[0]] + rest else rest
  }

  /** How many elements of `s` satisfy `p`, as SQL `COUNT(*) ... WHERE p`. */
  function Count<T>(s: seq<T>, p: T -> bool): nat
  {
    if s == [] then 0 else (if p(s[0]) then 1 else 0) + Count(s[1..], p)
  }

  /** A filter keeps exactly the elements `Count` counts. */
  lemma {:induction false} FilterLength<T(!new)>(s: seq<T>, p: T -> bool)
    ensures |Filter(s, p)| == Count(s, p)
  {
    if s != [] {
      FilterLength(s[1..], p);
    }
  }

  /** A filter every element passes keeps the sequence as it is. */
  lemma {:induction false} FilterKeepsAll<T(!new)>(s: seq<T>, p: T -> bool)
    requires forall x :: x in s ==> p(x)
    ensures Filter(s, p) == s
  {
    if s != [] {
      FilterKeepsAll(s[1..], p);
    }
  }

  /** The first `n` elements, as SQL `LIMIT n`. */
  function Take<T>(s: seq<T>, n: nat): (r: seq<T>)
    ensures |r| == if n < |s| then n else |s|
    ensures r <= s
  {
    if n < |s| then s[..n] else s
  }

  /** A composite ordering key: compared on `major`, then on `minor`. */
  datatype SortKey = SortKey(major: int, minor: int)

  predicate KeyGe(a: SortKey, b: SortKey)
  {
    a.major > b.major || (a.major == b.major && a.minor >= b.minor)
  }

  predicate SortedDesc<T>(s: seq<T>, key: T -> SortKey)
  {
    forall i, j :: 0 <= i < j < |s| ==> KeyGe(key(s[i]), key(s[j]))
  }

  /**
   * `r` is what `ORDER BY key DESC LIMIT n` returns from the rows `s`: the
   * `n` greatest of them (all of them when there are fewer), greatest first,
   * and no row left out ranks above a row returned.
   */
  ghost predicate TopN<T>(r: seq<T>, s: seq<T>, key: T -> SortKey, n: nat)
  {
    |r| == (if n < |s| then n else |s|) &&
    multiset(r) <= multiset(s) &&
    SortedDesc(r, key) &&
    forall x, y :: x in multiset(s) - multiset(r) && y in r ==> KeyGe(key(y), key(x))
  }

  /** The first `n` elements of a descending sequence are its top `n`. */
  lemma TakeIsTopN<T>(s: seq<T>, key: T -> SortKey, n: nat)
    requires SortedDesc(s, key)
    ensures TopN(Take(s, n), s, key, n)
  {
    var r := Take(s, n);
    assert forall i :: 0 <= i < |r| ==> r[i] == s[i];
    if n < |s| {
      assert s == r + s[n..];
      assert multiset(s) == multiset(r) + multiset(s[n..]);
      forall x, y | x in multiset(s) - multiset(r) && y in r
        ensures KeyGe(key(y), key(x))
      {
        assert x in s[n..];
        var j :| 0 <= j < |s[n..]| && s[n..][j] == x;
        var i :| 0 <= i < |r| && r[i] == y;
        assert s[n + j] == x && s[i] == y;
      }
    }
  }

  /** A top `n` of some rows is a top `n` of any rearrangement of them. */
  lemma TopNOfPermutation<T>(r: seq<T>, s: seq<T>, t: seq<T>, key: T -> SortKey, n: nat)
    requires TopN(r, s, key, n) && multiset(s) == multiset(t)
    ensures TopN(r, t, key, n)
  {
    assert |s| == |multiset(s)| == |multiset(t)| == |t|;
  }

  /** A top `n` holds only rows of `s`, and all of them when there are at most `n`. */
  lemma TopNMembers<T>(r: seq<T>, s: seq<T>, key: T -> SortKey, n: nat)
    requires TopN(r, s, key, n)
    ensures forall x :: x in r ==> x in s
    ensures |s| <= n ==> multiset(r) == multiset(s)
  {
    forall x | x in r ensures x in s {
      assert x in multiset(r);
    }
    if |s| <= n {
      assert |multiset(s) - multiset(r)| == |multiset(s)| - |multiset(r)| == 0;
      assert multiset(s) == multiset(r) + (multiset(s) - multiset(r));
    }
  }

  lemma KeyGeTotal(a: SortKey, b: SortKey)
    ensures KeyGe(a, b) || KeyGe(b, a)
  {
  }

  lemma KeyGeTransitive(a: SortKey, b: SortKey, c: SortKey)
    requires KeyGe(a, b) && KeyGe(b, c)
    ensures KeyGe(a, c)
  {
  }

  /** The head of a descending sequence is at least every element of it. */
  lemma HeadIsGreatest<T>(s: seq<T>, key: T -> SortKey, y: T)
    requires SortedDesc(s, key) && |s| > 0 && y in s
    ensures KeyGe(key(s[0]), key(y))
  {
    var k :| 0 <= k < |s| && s[k] == y;
    if k == 0 {
      assert KeyGe(key(y), key(y));
    }
  }

  function InsertDesc<T(!new)>(x: T, s: seq<T>, key: T -> SortKey): (r: seq<T>)
    requires SortedDesc(s, key)
    ensures |r| == |s| + 1
    ensures multiset(r) == multiset(s) + multiset{x}
    ensures SortedDesc(r, key)
  {
    if s == [] then [x]
    else if KeyGe(key(x), key(s[0])) then
      assert forall j :: 0 < j < |[x] + s| ==> KeyGe(key(x), key(([x] + s)[j])) by {
        forall j | 0 < j < |[x] + s| ensures KeyGe(key(x), key(([x] + s)[j])) {
          HeadIsGreatest(s, key, s[j - 1]);
          KeyGeTransitive(key(x), key(s[0]), key(s[j - 1]));
        }
      }
      [x] + s
    else
      var rest := InsertDesc(x, s[1..], key);
      InsertTail(x, s, key, rest);
      [s[0]] + rest
  }

  lemma InsertTail<T>(x: T, s: seq<T>, key: T -> SortKey, rest: seq<T>)
    requires SortedDesc(s, key) && |s| > 0 && !KeyGe(key(x), key(s[0]))
    requires SortedDesc(rest, key) && multiset(rest) == multiset(s[1..]) + multiset{x}
    ensures SortedDesc([s[0]] + rest, key)
    ensures multiset([s[0]] + rest) == multiset(s) + multiset{x}
  {
    assert s == [s[0]] + s[1..];
    KeyGeTotal(key(x), key(s[0]));
    forall j | 0 <= j < |rest| ensures KeyGe(key(s[0]), key(rest[j])) {
      var y := rest[j];
      assert y in multiset(rest);
      if y != x {
        assert y in s;
        HeadIsGreatest(s, key, y);
      }
    }
  }

  /** Sequences with the same multiset have the same members. */
  lemma SameMembers<T>(a: seq<T>, b: seq<T>)
    requires multiset(a) == multiset(b)
    ensures forall x :: x in a <==> x in b
  {
    forall x
      ensures x in a <==> x in b
    {
      assert x in a <==> x in multiset(a);
      assert x in b <==> x in multiset(b);
    }
  }

  /** The elements of `s` ordered by `key`, greatest first (ORDER BY ... DESC). */
  function SortDesc<T(!new)>(s: seq<T>, key: T -> SortKey): (r: seq<T>)
    ensures SortedDesc(r, key)
    ensures multiset(r) == multiset(s)
    ensures |r| == |s|
  {
    if s == [] then []
    else
      assert s == [s[0]] + s[1..];
      InsertDesc(s[0], SortDesc(s[1..], key), key)
  }
}
