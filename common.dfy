/** Shared vocabulary: optional values, handler replies, identifiers and
    decimal rendering of numbers (JavaScript's `String(n)` / template
    interpolation of a non-negative integer). */
module Common {

  datatype Option<+T> = None | Some(value: T)

  /** What a handler sends back: a value with status 200, or a status code
      with the text passed to `res.status(code).send(text)`. */
  datatype Reply<+T> = Ok(value: T) | Err(status: nat, text: string)

  /** The outcome of a library call that may throw: the thrown error's
      message becomes the 500 reply of the caller's catch block. */
  datatype Result<+T> = Success(value: T) | Failure(error: string)

  /** An Err reply carried over to another value type. */
  function Refuse<A, B>(r: Reply<A>): (s: Reply<B>)
    requires r.Err?
    ensures s.Err? && s.status == r.status && s.text == r.text
  {
    Err(r.status, r.text)
  }

  /** A database or user identifier, compared as a string (`toString()`). */
  type Id = string

  predicate IsHexDigit(c: char) {
    '0' <= c <= '9' || 'a' <= c <= 'f'
  }

  /** `mongoose.Types.ObjectId.isValid` on a string: 24 hexadecimal digits,
      here in the lower-case spelling `ObjectId.toString()` produces, so that
      one document has one id string. */
  predicate IsObjectId(s: string) {
    |s| == 24 && forall i :: 0 <= i < |s| ==> IsHexDigit(s[i])
  }

  predicate NoDup<T(==)>(s: seq<T>) {
    forall i, j :: 0 <= i < j < |s| ==> s[i] != s[j]
  }

  /** `s` with every occurrence of `x` dropped (Mongo's `$pull`, and
      deleting a key of a JavaScript Map from its key order). */
  function Without<T(==)>(s: seq<T>, x: T): seq<T> {
    if |s| == 0 then []
    else if s[0] == x then Without(s[1..], x)
    else [s[0]] + Without(s[1..], x)
  }

  lemma {:induction false} WithoutMembers<T>(s: seq<T>, x: T)
    ensures forall y :: y in Without(s, x) <==> y in s && y != x
    ensures |Without(s, x)| <= |s|
  {
    if |s| > 0 {
      WithoutMembers(s[1..], x);
      assert s == [s[0]] + s[1..];
    }
  }

  lemma {:induction false} WithoutNoDup<T>(s: seq<T>, x: T)
    requires NoDup(s)
    ensures NoDup(Without(s, x))
  {
    if |s| > 0 {
      assert NoDup(s[1..]) by {
        forall i, j | 0 <= i < j < |s[1..]| ensures s[1..][i] != s[1..][j] {
          assert s[1..][i] == s[i + 1] && s[1..][j] == s[j + 1];
        }
      }
      WithoutNoDup(s[1..], x);
      WithoutMembers(s[1..], x);
      if s[0] != x {
        var r := Without(s[1..], x);
        assert s[0] !in s[1..] by {
          forall k | 0 <= k < |s[1..]| ensures s[1..][k] != s[0] {
            assert s[1..][k] == s[k + 1];
          }
        }
        assert s[0] !in r;
        forall i, j | 0 <= i < j < |[s[0]] + r| ensures ([s[0]] + r)[i] != ([s[0]] + r)[j] {
          if i == 0 {
            assert ([s[0]] + r)[j] == r[j - 1];
          } else {
            assert ([s[0]] + r)[i] == r[i - 1] && ([s[0]] + r)[j] == r[j - 1];
          }
        }
      }
    }
  }

  /** Removing an element that occurs once shortens a duplicate-free sequence by one. */
  lemma {:induction false} WithoutLength<T>(s: seq<T>, x: T)
    requires NoDup(s)
    ensures |Without(s, x)| == if x in s then |s| - 1 else |s|
  {
    if |s| > 0 {
      assert NoDup(s[1..]) by {
        forall i, j | 0 <= i < j < |s[1..]| ensures s[1..][i] != s[1..][j] {
          assert s[1..][i] == s[i + 1] && s[1..][j] == s[j + 1];
        }
      }
      WithoutLength(s[1..], x);
      if s[0] == x {
        assert x !in s[1..] by {
          forall k | 0 <= k < |s[1..]| ensures s[1..][k] != x {
            assert s[1..][k] == s[k + 1];
          }
        }
      } else {
        assert x in s <==> x in s[1..] by {
          assert s == [s[0]] + s[1..];
        }
      }
    }
  }

  /** A duplicate-free sequence that lists exactly the elements of a set has
      that set's size. */
  lemma {:induction false} NoDupSize<T>(s: seq<T>, keys: set<T>)
    requires NoDup(s)
    requires forall x :: x in keys <==> x in s
    ensures |s| == |keys|
  {
    if |s| > 0 {
      var rest := s[1..];
      assert NoDup(rest) by {
        forall i, j | 0 <= i < j < |rest| ensures rest[i] != rest[j] {
          assert rest[i] == s[i + 1] && rest[j] == s[j + 1];
        }
      }
      assert s[0] !in rest by {
        forall k | 0 <= k < |rest| ensures rest[k] != s[0] {
          assert rest[k] == s[k + 1];
        }
      }
      forall x ensures x in keys - {s[0]} <==> x in rest {
        assert s == [s[0]] + rest;
      }
      NoDupSize(rest, keys - {s[0]});
    }
  }

  // ---- decimal rendering ----

  predicate IsDigit(c: char) {
    '0' <= c <= '9'
  }

  predicate AllDigits(s: string) {
    forall i :: 0 <= i < |s| ==> IsDigit(s[i])
  }

  function DigitChar(d: nat): (c: char)
    requires d < 10
    ensures IsDigit(c)
  {
    ('0' as int + d) as char
  }

  function DigitValue(c: char): (d: nat)
    requires IsDigit(c)
    ensures d < 10 && DigitChar(d) == c
  {
    c as int - '0' as int
  }

  /** The decimal numeral of `n`, as `String(n)` prints a non-negative integer. */
  function NatToString(n: nat): string
    decreases n
  {
    if n < 10 then [DigitChar(n)] else NatToString(n / 10) + [DigitChar(n % 10)]
  }

  /** The value of a numeral (the reference reading of a digit string). */
  function ParseNat(s: string): nat
    requires AllDigits(s)
  {
    if |s| == 0 then 0 else ParseNat(s[..|s| - 1]) * 10 + DigitValue(s[|s| - 1])
  }

  /** `NatToString` is a numeral without a superfluous leading zero, and
      reading it back gives the number. */
  lemma {:induction false} NatToStringParses(n: nat)
    ensures AllDigits(NatToString(n))
    ensures 1 <= |NatToString(n)|
    ensures |NatToString(n)| == 1 <==> n < 10
    ensures NatToString(n)[0] == '0' ==> n == 0
    ensures ParseNat(NatToString(n)) == n
  {
    if n >= 10 {
      NatToStringParses(n / 10);
      var s := NatToString(n);
      var p := NatToString(n / 10);
      assert s == p + [DigitChar(n % 10)];
      assert s[..|s| - 1] == p;
      assert s[0] == p[0];
    }
  }

  /** A leading zero does not change a numeral's value. */
  lemma {:induction false} LeadingZero(s: string)
    requires AllDigits(s)
    ensures AllDigits("0" + s) && ParseNat("0" + s) == ParseNat(s)
  {
    if |s| > 0 {
      var t := "0" + s;
      assert t[..|t| - 1] == "0" + s[..|s| - 1];
      assert t[|t| - 1] == s[|s| - 1];
      LeadingZero(s[..|s| - 1]);
    } else {
      assert ("0" + s)[..0] == "";
    }
  }

  /** `String(n).padStart(2, "0")`. */
  function PadStart2(s: string): string {
    if |s| == 0 then "00" else if |s| == 1 then "0" + s else s
  }
}
