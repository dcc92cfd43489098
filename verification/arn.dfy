/**
  The account id of line 27: `context.invoked_function_arn.split(":")[4]`.
  Python's `str.split(sep)` returns one more field than there are separators
  (empty fields included), and indexing past the end raises `IndexError`.
 */
module Arn {
  import opened Wrappers

  /** The separator of ARN fields. */
  const Separator: char := ':'

  /** Index of the account-id field in a function ARN. */
  const AccountField: nat := 4

  /** The message of Python's `IndexError` for a list. */
  const IndexErrorMessage: string := "list index out of range"

  /** The number of occurrences of `c` in `s`. */
  function Count(s: string, c: char): nat
  {
    if |s| == 0 then 0 else (if s[0] == c then 1 else 0) + Count(s[1..], c)
  }

  /** `s.split(sep)`. */
  function Split(s: string, sep: char): (fields: seq<string>)
    ensures |fields| == Count(s, sep) + 1
    ensures forall i :: 0 <= i < |fields| ==> sep !in fields[i]
  {
    if |s| == 0 then [""]
    else
      var rest := Split(s[1..], sep);
      if s[0] == sep then [""] + rest
      else [[s[0]] + rest[0]] + rest[1..]
  }

  /** `sep.join(fields)`. */
  function Join(fields: seq<string>, sep: char): string
  {
    if |fields| == 0 then ""
    else if |fields| == 1 then fields[0]
    else fields[0] + [sep] + Join(fields[1..], sep)
  }

  /** Joining the fields of a split gives back the original string. */
  lemma {:induction false} JoinSplit(s: string, sep: char)
    ensures Join(Split(s, sep), sep) == s
    decreases |s|
  {
    if |s| > 0 {
      var rest := Split(s[1..], sep);
      JoinSplit(s[1..], sep);
      if s[0] == sep {
        assert ([""] + rest)[1..] == rest;
      } else {
        var fields := [[s[0]] + rest[0]] + rest[1..];
        if |rest| > 1 {
          assert fields[1..] == rest[1..];
          assert Join(rest, sep) == rest[0] + [sep] + Join(rest[1..], sep);
        }
        assert s == [s[0]] + s[1..];
      }
    }
  }

  /** Splitting a join of separator-free fields gives back the fields. */
  lemma {:induction false} SplitJoin(fields: seq<string>, sep: char)
    requires |fields| > 0
    requires forall i :: 0 <= i < |fields| ==> sep !in fields[i]
    ensures Split(Join(fields, sep), sep) == fields
    decreases |fields|
  {
    if |fields| == 1 {
      SplitPlain(fields[0], sep);
    } else {
      SplitJoin(fields[1..], sep);
      SplitAfterField(fields[0], Join(fields[1..], sep), sep);
      assert fields == [fields[0]] + fields[1..];
    }
  }

  /** A string without the separator is a single field. */
  lemma {:induction false} SplitPlain(a: string, sep: char)
    requires sep !in a
    ensures Split(a, sep) == [a]
    decreases |a|
  {
    if |a| > 0 {
      SplitPlain(a[1..], sep);
      assert a == [a[0]] + a[1..];
    }
  }

  /** A separator-free prefix followed by the separator becomes the first field. */
  lemma {:induction false} SplitAfterField(a: string, t: string, sep: char)
    requires sep !in a
    ensures Split(a + [sep] + t, sep) == [a] + Split(t, sep)
    decreases |a|
  {
    if |a| == 0 {
      assert ([] + [sep] + t)[1..] == t;
    } else {
      assert (a + [sep] + t)[1..] == a[1..] + [sep] + t;
      SplitAfterField(a[1..], t, sep);
      assert a == [a[0]] + a[1..];
    }
  }

  /**
    The account id, or the `IndexError` that line 27 raises when the ARN has
    fewer than five `:`-separated fields.
   */
  function AccountId(arn: string): (r: Result<string>)
    ensures r.Ok? <==> Count(arn, Separator) >= AccountField
    ensures r.Err? ==> r.message == IndexErrorMessage
    ensures r.Ok? ==> Separator !in r.value
  {
    var fields := Split(arn, Separator);
    if |fields| > AccountField then Ok(fields[AccountField]) else Err(IndexErrorMessage)
  }

  /**
    An ARN assembled from five or more `:`-free fields, such as
    `arn:aws:lambda:<region>:<account>:function:<name>`, yields its fifth
    field as the account id.
   */
  lemma AccountIdOfFields(fields: seq<string>)
    requires |fields| > AccountField
    requires forall i :: 0 <= i < |fields| ==> Separator !in fields[i]
    ensures AccountId(Join(fields, Separator)) == Ok(fields[AccountField])
  {
    SplitJoin(fields, Separator);
  }
}
