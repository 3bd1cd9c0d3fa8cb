/** Values and string helpers shared by the SQL text builders of w3af's db layer. */
module SqlText {

  /** A value bound to a `?` placeholder of a prepared statement. */
  datatype Value = Null | Integer(n: int) | Text(s: string)

  datatype Option<+T> = None | Some(value: T)

  /** Python's `sep.join(xs)`. */
  function Join(sep: string, xs: seq<string>): string
    decreases |xs|
  {
    if |xs| == 0 then ""
    else if |xs| == 1 then xs[0]
    else xs[0] + sep + Join(sep, xs[1..])
  }

  /** Python's slice `s[k:]` for a non-negative `k`: empty once `k` passes the end. */
  function PySliceFrom(s: string, k: nat): (r: string)
    ensures |r| == if k <= |s| then |s| - k else 0
    ensures r == s[|s| - |r|..]
  {
    if k <= |s| then s[k..] else ""
  }

  /** Number of occurrences of the character `c` in `s`. */
  function CountChar(c: char, s: string): nat
  {
    multiset(s)[c]
  }

  /** Counting a character distributes over concatenation. */
  lemma CountCharAppend(c: char, a: string, b: string)
    ensures CountChar(c, a + b) == CountChar(c, a) + CountChar(c, b)
  {
  }

  /** A string without `c` counts none of it. */
  lemma CountCharAbsent(c: char, s: string)
    requires c !in s
    ensures CountChar(c, s) == 0
  {
  }

  /** Text around `s` that holds no `c` adds no `c`. */
  lemma CountCharSkip(c: char, pre: string, s: string, post: string)
    requires c !in pre && c !in post
    ensures CountChar(c, pre + s) == CountChar(c, s)
    ensures CountChar(c, pre + s + post) == CountChar(c, s)
  {
  }

  /** Appending one more element to a non-empty join adds the separator and the element. */
  lemma {:induction false} JoinSnoc(sep: string, xs: seq<string>, x: string)
    requires |xs| > 0
    ensures Join(sep, xs + [x]) == Join(sep, xs) + sep + x
    decreases |xs|
  {
    if |xs| == 1 {
      assert xs + [x] == [xs[0], x];
      assert [xs[0], x][1..] == [x];
    } else {
      assert (xs + [x])[1..] == xs[1..] + [x];
      JoinSnoc(sep, xs[1..], x);
    }
  }

  /** When no element holds `c` and the separator holds one, a join of `n > 0` elements holds `n - 1`. */
  lemma {:induction false} JoinCountChar(c: char, sep: string, xs: seq<string>)
    requires CountChar(c, sep) == 1
    requires forall i :: 0 <= i < |xs| ==> c !in xs[i]
    ensures CountChar(c, Join(sep, xs)) == if |xs| == 0 then 0 else |xs| - 1
    decreases |xs|
  {
    if |xs| == 1 {
      CountCharAbsent(c, xs[0]);
    } else if |xs| > 1 {
      var rest := xs[1..];
      assert forall i :: 0 <= i < |rest| ==> c !in rest[i] by {
        forall i | 0 <= i < |rest| ensures c !in rest[i] { assert rest[i] == xs[i + 1]; }
      }
      JoinCountChar(c, sep, rest);
      CountCharAbsent(c, xs[0]);
      assert Join(sep, xs) == xs[0] + sep + Join(sep, rest);
      CountCharAppend(c, xs[0] + sep, Join(sep, rest));
      CountCharAppend(c, xs[0], sep);
    }
  }
}
