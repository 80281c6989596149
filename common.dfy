/** Shared vocabulary of the operator model: optional values and results, the
    errors the reconcilers hand back to their caller, and the list and string
    helpers the Go code takes from its standard library (slice filtering,
    strings.Split, strings.Join, strings.Contains, strconv.Itoa). */
module Common {

  datatype Option<+T> = None | Some(value: T)

  datatype Result<+T, +E> = Ok(value: T) | Err(error: E)

  /** How a call into the resource store can fail. */
  datatype ApiError = NotFound | Conflict | Unavailable

  /** An error as the reconcilers return it: a store error, an error built
      from a message (fmt.Errorf), or an error wrapped with a context
      (errors.Wrap). */
  datatype Error =
    | Store(api: ApiError)
    | Failure(text: string)
    | Wrapped(context: string, cause: Error)

  // ---------------------------------------------------------------------
  // Sequences
  // ---------------------------------------------------------------------

  predicate NoDup<T(==)>(s: seq<T>) {
    forall i, j :: 0 <= i < j < |s| ==> s[i] != s[j]
  }

  /** `r` is `s` with some elements left out, the rest in their order. */
  predicate Subseq<T(==)>(r: seq<T>, s: seq<T>)
    decreases |s|
  {
    r == [] || (s != [] && ((r[0] == s[0] && Subseq(r[1..], s[1..])) || Subseq(r, s[1..])))
  }

  /** The elements of `s` that do not occur in `xs`, in their order in `s`. */
  function Minus<T(==,!new)>(s: seq<T>, xs: seq<T>): (r: seq<T>)
    ensures forall x :: x in r <==> x in s && x !in xs
    ensures Subseq(r, s)
    ensures NoDup(s) ==> NoDup(r)
  {
    if s == [] then []
    else if s[0] in xs then Minus(s[1..], xs)
    else [s[0]] + Minus(s[1..], xs)
  }

  /** `s` with every occurrence of `v` removed (removeElement, controllerutil.RemoveFinalizer). */
  function Without<T(==,!new)>(s: seq<T>, v: T): (r: seq<T>)
    ensures forall x :: x in r <==> x in s && x != v
    ensures Subseq(r, s)
    ensures NoDup(s) ==> NoDup(r)
  {
    if s == [] then []
    else if s[0] == v then Without(s[1..], v)
    else
      var rest := Without(s[1..], v);
      assert NoDup(s) ==> s[0] !in rest;
      [s[0]] + rest
  }

  /** The position of the first element of `s` satisfying `p`, or |s| when none does. */
  function FirstIndex<T>(s: seq<T>, p: T -> bool): (k: nat)
    ensures k <= |s|
    ensures forall j :: 0 <= j < k ==> !p(s[j])
    ensures k < |s| ==> p(s[k])
  {
    if s == [] then 0
    else if p(s[0]) then 0
    else 1 + FirstIndex(s[1..], p)
  }

  lemma {:induction false} MinusExtend<T(!new)>(s: seq<T>, xs: seq<T>, v: T)
    ensures Minus(s, xs + [v]) == Without(Minus(s, xs), v)
  {
    if s != [] {
      MinusExtend(s[1..], xs, v);
    }
  }

  lemma {:induction false} WithoutAbsent<T(!new)>(s: seq<T>, v: T)
    requires v !in s
    ensures Without(s, v) == s
  {
    if s != [] {
      WithoutAbsent(s[1..], v);
    }
  }

  lemma {:induction false} WithoutAppended<T(!new)>(s: seq<T>, v: T)
    ensures Without(s + [v], v) == Without(s, v)
  {
    if s == [] {
      assert [v][1..] == [];
    } else {
      assert (s + [v])[1..] == s[1..] + [v];
      WithoutAppended(s[1..], v);
    }
  }

  lemma {:induction false} MinusSnoc<T(!new)>(s: seq<T>, v: T, xs: seq<T>)
    ensures Minus(s + [v], xs) == Minus(s, xs) + (if v in xs then [] else [v])
  {
    if s == [] {
      assert [v][1..] == [];
    } else {
      assert (s + [v])[1..] == s[1..] + [v];
      MinusSnoc(s[1..], v, xs);
    }
  }

  lemma {:induction false} WithoutSnoc<T(!new)>(s: seq<T>, x: T, v: T)
    ensures Without(s + [x], v) == Without(s, v) + (if x == v then [] else [x])
  {
    if s == [] {
      assert [x][1..] == [];
    } else {
      assert (s + [x])[1..] == s[1..] + [x];
      WithoutSnoc(s[1..], x, v);
    }
  }

  /** Nothing is removed when no element of `s` occurs in `xs`. */
  lemma {:induction false} MinusDisjoint<T(!new)>(s: seq<T>, xs: seq<T>)
    requires forall x :: x in s ==> x !in xs
    ensures Minus(s, xs) == s
  {
    if s != [] {
      MinusDisjoint(s[1..], xs);
    }
  }

  /** Everything is removed when every element of `s` occurs in `xs`. */
  lemma {:induction false} MinusCovered<T(!new)>(s: seq<T>, xs: seq<T>)
    requires forall x :: x in s ==> x in xs
    ensures Minus(s, xs) == []
  {
    if s != [] {
      MinusCovered(s[1..], xs);
    }
  }

  /** Removing from `s` every element of `s` that is missing from `t` keeps
      exactly the elements of `s` that occur in `t`. */
  lemma {:induction false} MinusTwice<T(!new)>(s: seq<T>, t: seq<T>)
    ensures forall x :: x in Minus(s, Minus(s, t)) <==> x in s && x in t
  {
  }

  lemma {:induction false} SplitAtEnd<T>(s: seq<T>, i: nat)
    requires i < |s|
    ensures s[..i + 1] == s[..i] + [s[i]]
  {
  }

  // ---------------------------------------------------------------------
  // Strings
  // ---------------------------------------------------------------------

  /** strings.Contains(s, sub). */
  predicate HasSubstring(s: string, sub: string)
    decreases |s|
  {
    (|sub| <= |s| && s[..|sub|] == sub) || (|s| > 0 && HasSubstring(s[1..], sub))
  }

  /** Every string contains itself. */
  lemma HasSubstringSelf(s: string)
    ensures HasSubstring(s, s)
  {
    assert s[..|s|] == s;
  }

  /** strings.Split(s, [sep]) for a one-character separator. */
  function Split(s: string, sep: char): (parts: seq<string>)
    ensures |parts| >= 1
    ensures forall i :: 0 <= i < |parts| ==> sep !in parts[i]
    decreases |s|
  {
    if s == [] then [""]
    else
      var rest := Split(s[1..], sep);
      if s[0] == sep then [""] + rest
      else [[s[0]] + rest[0]] + rest[1..]
  }

  /** strings.Join(parts, [sep]). */
  function Join(parts: seq<string>, sep: char): string
  {
    if |parts| == 0 then ""
    else if |parts| == 1 then parts[0]
    else parts[0] + [sep] + Join(parts[1..], sep)
  }

  lemma {:induction false} JoinSplit(s: string, sep: char)
    ensures Join(Split(s, sep), sep) == s
  {
    if s != [] {
      JoinSplit(s[1..], sep);
      var rest := Split(s[1..], sep);
      if s[0] == sep {
        assert Split(s, sep) == [""] + rest;
        assert (([""] + rest)[1..]) == rest;
      } else {
        var parts := Split(s, sep);
        assert parts == [[s[0]] + rest[0]] + rest[1..];
        if |rest| == 1 {
          assert Join(rest, sep) == rest[0];
        } else {
          assert parts[1..] == rest[1..];
          assert Join(rest, sep) == rest[0] + [sep] + Join(rest[1..], sep);
        }
      }
    }
  }

  /** A piece without the separator splits to itself. */
  lemma {:induction false} SplitPlain(p: string, sep: char)
    requires sep !in p
    ensures Split(p, sep) == [p]
  {
    if p != [] {
      SplitPlain(p[1..], sep);
      assert p == [p[0]] + p[1..];
    }
  }

  /** Splitting at a separator splits both sides independently. */
  lemma {:induction false} SplitConcat(a: string, b: string, sep: char)
    ensures Split(a + [sep] + b, sep) == Split(a, sep) + Split(b, sep)
  {
    if a == [] {
      assert [sep] + b == a + [sep] + b;
      assert ([sep] + b)[1..] == b;
    } else {
      assert (a + [sep] + b)[0] == a[0];
      assert (a + [sep] + b)[1..] == a[1..] + [sep] + b;
      SplitConcat(a[1..], b, sep);
    }
  }

  lemma {:induction false} SplitJoin(parts: seq<string>, sep: char)
    requires |parts| >= 1
    requires forall i :: 0 <= i < |parts| ==> sep !in parts[i]
    ensures Split(Join(parts, sep), sep) == parts
  {
    if |parts| == 1 {
      SplitPlain(parts[0], sep);
    } else {
      SplitJoin(parts[1..], sep);
      SplitConcat(parts[0], Join(parts[1..], sep), sep);
      SplitPlain(parts[0], sep);
      assert parts == [parts[0]] + parts[1..];
    }
  }

  /** A string holds the separator exactly when it splits into two or more pieces. */
  lemma {:induction false} SplitCount(s: string, sep: char)
    ensures sep in s <==> |Split(s, sep)| >= 2
  {
    if s != [] {
      SplitCount(s[1..], sep);
      assert sep in s <==> s[0] == sep || sep in s[1..];
    }
  }

  /** The first piece of a split is the longest prefix free of the separator. */
  lemma {:induction false} SplitHead(s: string, sep: char)
    ensures Split(s, sep)[0] <= s
    ensures |Split(s, sep)[0]| < |s| ==> s[|Split(s, sep)[0]|] == sep
  {
    if s != [] {
      SplitHead(s[1..], sep);
    }
  }

  // ---------------------------------------------------------------------
  // Decimal numbers (strconv.Itoa and its inverse)
  // ---------------------------------------------------------------------

  predicate IsDigit(c: char) {
    '0' <= c <= '9'
  }

  function NatToString(n: nat): (s: string)
    ensures |s| >= 1
    ensures forall i :: 0 <= i < |s| ==> IsDigit(s[i])
  {
    if n < 10 then ["0123456789"[n]]
    else NatToString(n / 10) + ["0123456789"[n % 10]]
  }

  /** strconv.Itoa. */
  function Itoa(n: int): string
  {
    if n < 0 then "-" + NatToString(-n) else NatToString(n)
  }

  function ParseNat(s: string): (r: Option<nat>)
  {
    if s == [] || !IsDigit(s[|s| - 1]) then None
    else
      var d := (s[|s| - 1] as int - '0' as int) as nat;
      if |s| == 1 then Some(d)
      else match ParseNat(s[..|s| - 1])
        case None => None
        case Some(m) => Some(10 * m + d)
  }

  /** strconv.Atoi, restricted to an optional minus sign and decimal digits. */
  function Atoi(s: string): Option<int>
  {
    if |s| > 0 && s[0] == '-' then
      match ParseNat(s[1..])
      case None => None
      case Some(m) => Some(0 - m as int)
    else
      match ParseNat(s)
      case None => None
      case Some(m) => Some(m)
  }

  lemma {:induction false} ParseNatToString(n: nat)
    ensures ParseNat(NatToString(n)) == Some(n)
  {
    if n >= 10 {
      ParseNatToString(n / 10);
      var s := NatToString(n);
      assert s[..|s| - 1] == NatToString(n / 10);
    }
  }

  lemma {:induction false} AtoiItoa(n: int)
    ensures Atoi(Itoa(n)) == Some(n)
  {
    if n < 0 {
      ParseNatToString(-n);
      AtoiSigned(NatToString(-n));
    } else {
      ParseNatToString(n);
      AtoiUnsigned(NatToString(n));
    }
  }

  lemma AtoiSigned(digits: string)
    requires ParseNat(digits).Some?
    ensures Atoi("-" + digits) == Some(0 - ParseNat(digits).value as int)
  {
    assert ("-" + digits)[1..] == digits;
  }

  lemma AtoiUnsigned(digits: string)
    requires |digits| >= 1 && IsDigit(digits[0]) && ParseNat(digits).Some?
    ensures Atoi(digits) == Some(ParseNat(digits).value as int)
  {
  }
}
