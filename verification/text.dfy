/** String operations the report serialiser relies on: the newline rewrite
    applied to long literals, and comma joining with its inverse. */
module Text {

  /** Replaces every line feed with one space and leaves every other
      character alone, as `re.sub(r'\n', ' ', s)` does. */
  function ReplaceNewlines(s: string): (r: string)
    ensures |r| == |s|
    ensures forall i :: 0 <= i < |s| ==> r[i] == (if s[i] == '\n' then ' ' else s[i])
    ensures '\n' !in r
  {
    if |s| == 0 then ""
    else [if s[0] == '\n' then ' ' else s[0]] + ReplaceNewlines(s[1..])
  }

  /** Rewriting twice is the same as rewriting once. */
  lemma ReplaceNewlinesIdempotent(s: string)
    ensures ReplaceNewlines(ReplaceNewlines(s)) == ReplaceNewlines(s)
  {
    var r := ReplaceNewlines(s);
    assert ReplaceNewlines(r) == r by {
      NewlineFreeUnchanged(r);
    }
  }

  /** Text without line feeds passes through the rewrite unchanged. */
  lemma NewlineFreeUnchanged(s: string)
    requires '\n' !in s
    ensures ReplaceNewlines(s) == s
  {
    var r := ReplaceNewlines(s);
    assert forall i :: 0 <= i < |s| ==> r[i] == s[i];
  }

  /** Concatenates `xs` with `sep` between neighbours, as `sep.join(xs)`. */
  function Join(xs: seq<string>, sep: string): string
  {
    if |xs| == 0 then ""
    else if |xs| == 1 then xs[0]
    else xs[0] + sep + Join(xs[1..], sep)
  }

  /** Joining two non-empty lists puts one separator between the halves. */
  lemma {:induction false} JoinAppend(xs: seq<string>, ys: seq<string>, sep: string)
    requires |xs| >= 1 && |ys| >= 1
    ensures Join(xs + ys, sep) == Join(xs, sep) + sep + Join(ys, sep)
    decreases |xs|
  {
    if |xs| == 1 {
      assert (xs + ys)[1..] == ys;
    } else {
      assert (xs + ys)[1..] == xs[1..] + ys;
      JoinAppend(xs[1..], ys, sep);
    }
  }

  /** Cuts `s` at every occurrence of `c`, as `s.split(c)`: there is always at
      least one part, and no part contains `c`. */
  function Split(s: string, c: char): (parts: seq<string>)
    ensures |parts| >= 1
    ensures forall i :: 0 <= i < |parts| ==> c !in parts[i]
  {
    if |s| == 0 then [""]
    else
      var rest := Split(s[1..], c);
      if s[0] == c then [""] + rest
      else [[s[0]] + rest[0]] + rest[1..]
  }

  /** Text without the separator is a single part. */
  lemma {:induction false} SplitWithoutSeparator(s: string, c: char)
    requires c !in s
    ensures Split(s, c) == [s]
  {
    if |s| > 0 {
      SplitWithoutSeparator(s[1..], c);
      assert [s[0]] + s[1..] == s;
    }
  }

  /** A separator cuts the text in two independent halves. */
  lemma {:induction false} SplitAround(a: string, c: char, b: string)
    ensures Split(a + [c] + b, c) == Split(a, c) + Split(b, c)
    decreases |a|
  {
    if |a| == 0 {
      assert a + [c] + b == [c] + b;
      assert ([c] + b)[1..] == b;
    } else {
      var s := a + [c] + b;
      assert s[0] == a[0];
      assert s[1..] == a[1..] + [c] + b;
      SplitAround(a[1..], c, b);
    }
  }

  /** Joining the parts of a split gives the text back. */
  lemma {:induction false} JoinSplit(s: string, c: char)
    ensures Join(Split(s, c), [c]) == s
    decreases |s|
  {
    if |s| > 0 {
      JoinSplit(s[1..], c);
      var rest := Split(s[1..], c);
      if s[0] == c {
        assert Split(s, c) == [""] + rest;
        assert ([""] + rest)[1..] == rest;
        assert s == [c] + s[1..];
      } else {
        var parts := Split(s, c);
        assert parts == [[s[0]] + rest[0]] + rest[1..];
        if |rest| == 1 {
          assert s == [s[0]] + rest[0];
        } else {
          assert parts[1..] == rest[1..];
          assert Join(rest, [c]) == rest[0] + [c] + Join(rest[1..], [c]);
          assert s == [s[0]] + s[1..];
        }
      }
    }
  }

  /** Splitting a join gives the parts back, provided there is at least one
      part and none contains the separator. */
  lemma {:induction false} SplitJoin(xs: seq<string>, c: char)
    requires |xs| >= 1
    requires forall i :: 0 <= i < |xs| ==> c !in xs[i]
    ensures Split(Join(xs, [c]), c) == xs
    decreases |xs|
  {
    if |xs| == 1 {
      SplitWithoutSeparator(xs[0], c);
    } else {
      SplitJoin(xs[1..], c);
      SplitAround(xs[0], c, Join(xs[1..], [c]));
      SplitWithoutSeparator(xs[0], c);
      assert xs == [xs[0]] + xs[1..];
    }
  }

  /** A part that itself contains the separator does not survive the round
      trip: the comma-joined lists of the report cannot carry such values. */
  lemma CommaInValueIsAmbiguous()
    ensures Split(Join(["a,b"], ","), ',') == ["a", "b"]
  {
    assert "a,b" == "a" + [','] + "b";
    SplitAround("a", ',', "b");
    SplitWithoutSeparator("a", ',');
    SplitWithoutSeparator("b", ',');
  }
}
