/** Shared vocabulary of the compliance checks: how an AWS call can answer,
    how a check can end, and the few text rules the checks rely on. */
module Aws {

  datatype Option<T> = None | Some(value: T) {
    function GetOr(default: T): T {
      match this
      case Some(v) => v
      case None => default
    }
  }

  /** A failed AWS call. `ClientError` is botocore's ClientError with its
      error code; anything else the call or the code around it raises is
      `OtherError`. `text` is what `str(e)` renders. */
  datatype ApiError = ClientError(code: string, text: string) | OtherError(text: string)

  /** The answer of one AWS call, taken as input data. */
  datatype ApiResult<T> = Ok(value: T) | Fail(error: ApiError)

  /** A point in time: its epoch seconds (used for every comparison) and its
      ISO-8601 rendering (what `isoformat()` would print, kept opaque). */
  datatype Timestamp = Timestamp(epoch: int, iso: string)

  const SecondsPerDay: int := 86400

  /** `datetime.now() - timedelta(days=days)` in epoch seconds. */
  function DaysBefore(now: int, days: int): int {
    now - days * SecondsPerDay
  }

  /** A failure that is not a ClientError: an `except ClientError` handler
      lets it through. */
  predicate Escapes<T>(r: ApiResult<T>) {
    r.Fail? && r.error.OtherError?
  }

  /** How a check function that lets some exceptions escape ends: it returns
      a value, or the exception propagates to its caller. */
  datatype Run<T> = Returned(value: T) | Raised(error: ApiError)

  /** What a check function that catches every exception returns: the
      finding list, or the dictionary `{"error": message}`. */
  datatype Finding<R> = Rows(rows: seq<R>) | ErrorDict(message: string)

  /** What one loop iteration of a check contributes: rows to append, or an
      exception that leaves the loop. */
  datatype Step<R> = Emit(rows: seq<R>) | Stop(error: ApiError)

  /** The rows appended before the rest of the loop runs, prefixed to how
      the rest ends. */
  function Prepend<R>(rows: seq<R>, rest: Run<seq<R>>): Run<seq<R>> {
    match rest
    case Returned(tail) => Returned(rows + tail)
    case Raised(e) => Raised(e)
  }

  /** Nothing prepended changes nothing. */
  lemma PrependNothing<R>(rest: Run<seq<R>>)
    ensures Prepend([], rest) == rest
  {
    if rest.Returned? {
      assert [] + rest.value == rest.value;
    }
  }

  /** Prepending twice is prepending the concatenation. */
  lemma PrependTwice<R>(rows: seq<R>, more: seq<R>, rest: Run<seq<R>>)
    ensures Prepend(rows, Prepend(more, rest)) == Prepend(rows + more, rest)
    ensures more == [] ==> Prepend(rows, Prepend(more, rest)) == Prepend(rows, rest)
  {
    assert rows + [] == rows;
    if rest.Returned? {
      assert rows + (more + rest.value) == (rows + more) + rest.value;
    }
  }

  /** One iteration followed by the rest of the loop. */
  function Then<R>(step: Step<R>, rest: Run<seq<R>>): Run<seq<R>> {
    match step
    case Emit(rows) => Prepend(rows, rest)
    case Stop(e) => Raised(e)
  }

  /** `except Exception as e: return {"error": f"<context>{e}"}` around a loop. */
  function Caught<R>(run: Run<seq<R>>, context: string): Finding<R> {
    match run
    case Returned(rows) => Rows(rows)
    case Raised(e) => ErrorDict(context + e.text)
  }

  /** Python's `s.startswith(p)`. */
  predicate StartsWith(s: string, p: string) {
    |p| <= |s| && s[..|p|] == p
  }

  /** Python's `sub in s` on strings. */
  predicate Contains(s: string, sub: string)
    decreases |s|
  {
    StartsWith(s, sub) || (s != [] && Contains(s[1..], sub))
  }

  function DigitChar(d: int): char
    requires 0 <= d < 10
  {
    "0123456789"[d]
  }

  /** Python's `str(n)` for a non-negative integer. */
  function NatText(n: nat): (r: string)
    ensures |r| >= 1
  {
    if n < 10 then [DigitChar(n)] else NatText(n / 10) + [DigitChar(n % 10)]
  }

  /** Python's `str(n)` for any integer. */
  function IntText(n: int): string {
    if n < 0 then "-" + NatText(-n) else NatText(n)
  }

  /** The distinct elements of `s` (Python's round trip through a set). */
  function Distinct<T(==)>(s: seq<T>): (r: seq<T>)
    ensures NoDuplicates(r)
    ensures forall i :: 0 <= i < |s| ==> s[i] in r
    ensures forall i :: 0 <= i < |r| ==> r[i] in s
  {
    if s == [] then []
    else
      var rest := Distinct(s[1..]);
      assert s == [s[0]] + s[1..];
      if s[0] in rest then rest else [s[0]] + rest
  }

  /** No value occurs twice. */
  predicate NoDuplicates<T(==)>(s: seq<T>) {
    forall i, j :: 0 <= i < j < |s| ==> s[i] != s[j]
  }

  /** `a` is `b` with some elements left out, the rest in their order. */
  predicate IsSubsequence<T(==)>(a: seq<T>, b: seq<T>)
    decreases |b|
  {
    if a == [] then true
    else if b == [] then false
    else if a[0] == b[0] then IsSubsequence(a[1..], b[1..])
    else IsSubsequence(a, b[1..])
  }

  /** Putting an element in front keeps a subsequence a subsequence. */
  lemma {:induction false} SubsequenceOfCons<T>(a: seq<T>, b: seq<T>, x: T)
    requires IsSubsequence(a, b)
    ensures IsSubsequence(a, [x] + b)
    decreases |b|, 1
  {
    var xb := [x] + b;
    assert xb[1..] == b;
    if a != [] && a[0] == x {
      SubsequenceDropHead(a, b);
    }
  }

  /** Leaving out the first element of a subsequence keeps it a subsequence. */
  lemma {:induction false} SubsequenceDropHead<T>(a: seq<T>, b: seq<T>)
    requires a != [] && IsSubsequence(a, b)
    ensures IsSubsequence(a[1..], b)
    decreases |b|, 0
  {
    assert b == [b[0]] + b[1..];
    if a[0] == b[0] {
      SubsequenceOfCons(a[1..], b[1..], b[0]);
    } else {
      SubsequenceDropHead(a, b[1..]);
      SubsequenceOfCons(a[1..], b[1..], b[0]);
    }
  }

  /** Every element of a subsequence is an element of the whole. */
  lemma {:induction false} SubsequenceMembers<T>(a: seq<T>, b: seq<T>)
    requires IsSubsequence(a, b)
    ensures forall x :: x in a ==> x in b
    decreases |b|
  {
    if a != [] {
      assert b != [];
      if a[0] == b[0] {
        SubsequenceMembers(a[1..], b[1..]);
        assert a == [a[0]] + a[1..];
      } else {
        SubsequenceMembers(a, b[1..]);
      }
    }
  }

  /** A subsequence of a sequence without duplicates has none either. */
  lemma {:induction false} SubsequenceNoDuplicates<T>(a: seq<T>, b: seq<T>)
    requires IsSubsequence(a, b) && NoDuplicates(b)
    ensures NoDuplicates(a)
    decreases |b|
  {
    if a != [] {
      assert b != [];
      assert NoDuplicates(b[1..]) by {
        forall i, j | 0 <= i < j < |b[1..]| ensures b[1..][i] != b[1..][j] {
          assert b[1..][i] == b[i + 1] && b[1..][j] == b[j + 1];
        }
      }
      if a[0] == b[0] {
        SubsequenceNoDuplicates(a[1..], b[1..]);
        SubsequenceMembers(a[1..], b[1..]);
        assert b[0] !in b[1..] by {
          forall k | 0 <= k < |b[1..]| ensures b[1..][k] != b[0] {
            assert b[1..][k] == b[k + 1];
          }
        }
        forall i, j | 0 <= i < j < |a| ensures a[i] != a[j] {
          if i == 0 {
            assert a[j] == a[1..][j - 1];
            assert a[j] in a[1..];
          } else {
            assert a[i] == a[1..][i - 1] && a[j] == a[1..][j - 1];
          }
        }
      } else {
        SubsequenceNoDuplicates(a, b[1..]);
      }
    }
  }

  /** A subsequence is never longer than the whole. */
  lemma {:induction false} SubsequenceLength<T>(a: seq<T>, b: seq<T>)
    requires IsSubsequence(a, b)
    ensures |a| <= |b|
    decreases |b|
  {
    if a != [] {
      if a[0] == b[0] {
        SubsequenceLength(a[1..], b[1..]);
      } else {
        SubsequenceLength(a, b[1..]);
      }
    }
  }
}
