/** The append-only body of a DID log: one entry per line. */
module DidLog {
  import opened Text

  function TrimEnd(s: string): (r: string)
    ensures r <= s && (r == "" || r[|r| - 1] != '\n')
    ensures forall k :: |r| <= k < |s| ==> s[k] == '\n'
  {
    if s == "" || s[|s| - 1] != '\n' then s else TrimEnd(s[..|s| - 1])
  }

  function Updated(prev: string, line: string): string {
    var kept := TrimEnd(prev);
    if kept == "" then line else kept + ['\n'] + line
  }

  method BuildUpdatedDidlog(prev: string, line: string) returns (body: string)
    ensures body == Updated(prev, line)
  {
    body := TrimEnd(prev);
    if body != "" {
      body := body + ['\n'];
    }
    body := body + line;
  }

  function NonEmpty(lines: seq<string>): seq<string> {
    if lines == [] then []
    else (if lines[0] == "" then [] else [lines[0]]) + NonEmpty(lines[1..])
  }

  /** The entries a reader of the body sees. */
  function Entries(body: string): seq<string> {
    NonEmpty(Split(body, '\n'))
  }

  lemma NonEmptyCons(line: string, lines: seq<string>)
    ensures NonEmpty([line] + lines) == (if line == "" then [] else [line]) + NonEmpty(lines)
  {
  }

  lemma {:induction false} NonEmptyAppend(a: seq<string>, b: seq<string>)
    ensures NonEmpty(a + b) == NonEmpty(a) + NonEmpty(b)
  {
    if a == [] {
      assert a + b == b;
    } else {
      NonEmptyAppend(a[1..], b);
      NonEmptyCons(a[0], a[1..] + b);
      NonEmptyCons(a[0], a[1..]);
      assert a == [a[0]] + a[1..];
      assert a + b == [a[0]] + (a[1..] + b);
      hide NonEmpty;
      assert NonEmpty(a + b) == NonEmpty([a[0]] + (a[1..] + b));
      assert NonEmpty(a) == NonEmpty([a[0]] + a[1..]);
    }
  }

  lemma {:induction false} TrailingNewlinesAddNoEntries(s: string)
    ensures Entries(TrimEnd(s)) == Entries(s)
  {
    if s != "" && s[|s| - 1] == '\n' {
      var rest := s[..|s| - 1];
      TrailingNewlinesAddNoEntries(rest);
      assert s == rest + ['\n'] + "";
      SplitAtSeparator(rest, "", '\n');
      NonEmptyAppend(Split(rest, '\n'), [""]);
      assert NonEmpty([""]) == [];
    }
  }

  /** One update keeps every entry verbatim and adds the new one at the end. */
  lemma UpdateAppendsOneEntry(prev: string, line: string)
    requires line != "" && '\n' !in line
    ensures Entries(Updated(prev, line)) == Entries(prev) + [line]
  {
    var kept := TrimEnd(prev);
    TrailingNewlinesAddNoEntries(prev);
    SplitWhole(line, '\n');
    assert NonEmpty([line]) == [line];
    if kept != "" {
      SplitAtSeparator(kept, line, '\n');
      NonEmptyAppend(Split(kept, '\n'), [line]);
    } else {
      assert NonEmpty([""]) == [];
      assert Split(kept, '\n') == [""];
      assert Entries(kept) == [];
    }
  }

  /** Trailing newlines of the fetched body make no difference to the result. */
  lemma {:induction false} TrailingNewlinesDoNotMatter(prev: string, line: string, n: nat)
    ensures Updated(prev + seq(n, _ => '\n'), line) == Updated(prev, line)
  {
    var padded := prev + seq(n, _ => '\n');
    if n == 0 {
      assert padded == prev;
    } else {
      TrailingNewlinesDoNotMatter(prev, line, n - 1);
      assert padded[..|padded| - 1] == prev + seq(n - 1, _ => '\n');
    }
  }

  function UpdatedAll(body: string, lines: seq<string>): string {
    if lines == [] then body else Updated(UpdatedAll(body, lines[..|lines| - 1]), lines[|lines| - 1])
  }

  /** Over any sequence of updates the log only grows, in order. */
  lemma {:induction false} LogIsAppendOnly(body: string, lines: seq<string>)
    requires forall k :: 0 <= k < |lines| ==> lines[k] != "" && '\n' !in lines[k]
    ensures Entries(UpdatedAll(body, lines)) == Entries(body) + lines
  {
    if lines != [] {
      var before := lines[..|lines| - 1];
      LogIsAppendOnly(body, before);
      UpdateAppendsOneEntry(UpdatedAll(body, before), lines[|lines| - 1]);
      assert lines == before + [lines[|lines| - 1]];
    }
  }
}
