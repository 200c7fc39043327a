/** Splitting strings at a separator. */
module Text {
  import opened Wrappers

  /** The pieces between separators; always at least one, possibly empty. */
  function Split(s: string, sep: char): (r: seq<string>)
    ensures |r| >= 1
  {
    if s == "" then [""]
    else if s[0] == sep then [""] + Split(s[1..], sep)
    else var rest := Split(s[1..], sep); [[s[0]] + rest[0]] + rest[1..]
  }

  /** The text before and after the first separator. */
  function SplitOnce(s: string, sep: char): Option<(string, string)> {
    if s == "" then None
    else if s[0] == sep then Some(("", s[1..]))
    else match SplitOnce(s[1..], sep)
         case None => None
         case Some((a, b)) => Some(([s[0]] + a, b))
  }

  lemma {:induction false} SplitWhole(s: string, sep: char)
    requires sep !in s
    ensures Split(s, sep) == [s]
  {
    if s != "" {
      SplitWhole(s[1..], sep);
      assert [s[0]] + s[1..] == s;
    }
  }

  lemma SplitCons(c: char, s: string, sep: char)
    ensures Split([c] + s, sep) == if c == sep then [""] + Split(s, sep)
                                   else [[c] + Split(s, sep)[0]] + Split(s, sep)[1..]
  {
  }

  lemma TailOfSum(x: seq<string>, y: seq<string>)
    requires |x| >= 1
    ensures (x + y)[0] == x[0] && (x + y)[1..] == x[1..] + y
  {
  }

  /** One character more in front of a text already split. */
  lemma SplitAtSeparatorCons(c: char, a: string, b: string, sep: char)
    requires Split(a + [sep] + b, sep) == Split(a, sep) + Split(b, sep)
    ensures Split([c] + (a + [sep] + b), sep) == Split([c] + a, sep) + Split(b, sep)
  {
    hide Split;
    SplitCons(c, a + [sep] + b, sep);
    SplitCons(c, a, sep);
    var x, y := Split(a, sep), Split(b, sep);
    TailOfSum(x, y);
    if c == sep {
      assert [""] + (x + y) == ([""] + x) + y;
    } else {
      assert [[c] + x[0]] + (x[1..] + y) == ([[c] + x[0]] + x[1..]) + y;
    }
  }

  lemma {:induction false} SplitAtSeparator(a: string, b: string, sep: char)
    ensures Split(a + [sep] + b, sep) == Split(a, sep) + Split(b, sep)
  {
    if a == "" {
      assert a + [sep] + b == [sep] + b;
      SplitCons(sep, b, sep);
    } else {
      hide Split;
      var rest := a[1..];
      SplitAtSeparator(rest, b, sep);
      SplitAtSeparatorCons(a[0], rest, b, sep);
      assert a == [a[0]] + rest;
      assert a + [sep] + b == [a[0]] + (rest + [sep] + b);
    }
  }

  lemma {:induction false} SplitOnceAtFirst(a: string, b: string, sep: char)
    requires sep !in a
    ensures SplitOnce(a + [sep] + b, sep) == Some((a, b))
  {
    var s := a + [sep] + b;
    if a == "" {
      assert s == [sep] + b;
      assert s[1..] == b;
    } else {
      SplitOnceAtFirst(a[1..], b, sep);
      assert s[0] == a[0] && s[1..] == a[1..] + [sep] + b;
      assert [a[0]] + a[1..] == a;
    }
  }
}
