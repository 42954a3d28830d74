/**
 * The pipe-delimited line format: escaping and unescaping of the delimiter
 * (`escapeDelimiter` / `unescapeDelimiter`), joining fields with `|`, and
 * Java's `line.split("\\|")`, which splits on every pipe, escaped or not,
 * and drops trailing empty fields.
 */
module Delimited {

  const Pipe: char := '|'
  const Backslash: char := '\\'

  predicate PipeFree(s: string)
  {
    Pipe !in s
  }

  predicate AllPipeFree(fs: seq<string>)
  {
    forall i :: 0 <= i < |fs| ==> PipeFree(fs[i])
  }

  // ---------------------------------------------------------------------
  // Escaping
  // ---------------------------------------------------------------------

  /** A pipe at position `i` of `r` has a backslash right before it. */
  predicate EscapedAt(r: string, i: nat)
    requires i < |r|
  {
    r[i] == Pipe ==> 0 < i && r[i - 1] == Backslash
  }

  /** `value.replace("|", "\\|")`: a backslash is put in front of every pipe. */
  function Escape(s: string): (r: string)
    ensures forall i :: 0 <= i < |r| ==> EscapedAt(r, i)
    ensures PipeFree(s) ==> r == s
    ensures (Pipe in r) == (Pipe in s)
  {
    if s == [] then []
    else
      var rest := Escape(s[1..]);
      var r := (if s[0] == Pipe then [Backslash, Pipe] else [s[0]]) + rest;
      var h := |r| - |rest|;
      assert forall i :: 0 <= i < |rest| ==> r[h + i] == rest[i];
      assert forall i :: 0 <= i < |r| ==> EscapedAt(r, i) by {
        forall i | 0 <= i < |r| ensures EscapedAt(r, i) {
          if i > h {
            assert EscapedAt(rest, i - h);
          } else if i == h && rest != [] {
            assert EscapedAt(rest, 0);
          }
        }
      }
      assert s == [s[0]] + s[1..];
      r
  }

  /**
   * `value.replace("\\|", "|")`: scanning left to right, every backslash
   * that stands right before a pipe is removed; matches do not overlap.
   */
  function Unescape(s: string): (r: string)
    ensures |r| <= |s|
    ensures PipeFree(s) ==> r == s
    decreases |s|
  {
    if |s| >= 2 && s[0] == Backslash && s[1] == Pipe then [Pipe] + Unescape(s[2..])
    else if s == [] then []
    else
      assert s == [s[0]] + s[1..];
      [s[0]] + Unescape(s[1..])
  }

  /** Escaping works character by character, so it distributes over concatenation. */
  lemma {:induction false} EscapeConcat(a: string, b: string)
    ensures Escape(a + b) == Escape(a) + Escape(b)
  {
    if a != [] {
      var c := if a[0] == Pipe then [Backslash, Pipe] else [a[0]];
      calc {
        Escape(a + b);
        { assert (a + b)[0] == a[0] && (a + b)[1..] == a[1..] + b; }
        c + Escape(a[1..] + b);
        { EscapeConcat(a[1..], b); }
        c + (Escape(a[1..]) + Escape(b));
        (c + Escape(a[1..])) + Escape(b);
        Escape(a) + Escape(b);
      }
    } else {
      assert a + b == b;
    }
  }

  /** Unescaping undoes escaping for every string, including ones that hold backslashes. */
  lemma {:induction false} UnescapeEscape(s: string)
    ensures Unescape(Escape(s)) == s
  {
    if s != [] {
      var rest := Escape(s[1..]);
      UnescapeEscape(s[1..]);
      if s[0] == Pipe {
        assert Escape(s) == [Backslash, Pipe] + rest;
        assert Escape(s)[2..] == rest;
      } else {
        assert Escape(s) == [s[0]] + rest;
        assert Escape(s)[1..] == rest;
        assert rest != [] ==> rest[0] != Pipe;
      }
      assert s == [s[0]] + s[1..];
    }
  }

  // ---------------------------------------------------------------------
  // Joining and splitting
  // ---------------------------------------------------------------------

  /** The fields written one after another with a `|` between neighbours. */
  function Join(fs: seq<string>): string
  {
    if fs == [] then []
    else if |fs| == 1 then fs[0]
    else fs[0] + [Pipe] + Join(fs[1..])
  }

  lemma JoinCons(a: string, rest: seq<string>)
    requires rest != []
    ensures Join([a] + rest) == a + [Pipe] + Join(rest)
  {
    assert ([a] + rest)[1..] == rest;
  }

  /** Escaping text with one pipe between two pipe-free pieces escapes just that pipe. */
  lemma EscapeAroundPipe(a: string, b: string)
    requires PipeFree(a) && PipeFree(b)
    ensures Escape(a + [Pipe] + b) == a + [Backslash] + [Pipe] + b
  {
    var one: string := [Pipe];
    assert one[1..] == [];
    assert Escape(one) == [Backslash, Pipe];
    calc {
      Escape(a + one + b);
      { EscapeConcat(a + one, b); }
      Escape(a + one) + Escape(b);
      { EscapeConcat(a, one); }
      Escape(a) + Escape(one) + Escape(b);
      a + [Backslash, Pipe] + b;
    }
    assert a + [Backslash, Pipe] + b == a + [Backslash] + [Pipe] + b;
  }

  /** A field that holds a pipe joins to the same text as the two fields on either side of it. */
  lemma {:induction false} JoinSplitsField(pre: seq<string>, x: string, y: string, post: seq<string>)
    requires post != []
    ensures Join(pre + [x + [Pipe] + y] + post) == Join(pre + [x, y] + post)
    decreases |pre|
  {
    var joined := x + [Pipe] + y;
    if pre == [] {
      assert pre + [joined] + post == [joined] + post;
      assert pre + [x, y] + post == [x] + ([y] + post);
      JoinCons(joined, post);
      JoinCons(x, [y] + post);
      JoinCons(y, post);
    } else {
      JoinSplitsField(pre[1..], x, y, post);
      assert pre + [joined] + post == [pre[0]] + (pre[1..] + [joined] + post);
      assert pre + [x, y] + post == [pre[0]] + (pre[1..] + [x, y] + post);
      JoinCons(pre[0], pre[1..] + [joined] + post);
      JoinCons(pre[0], pre[1..] + [x, y] + post);
    }
  }

  /** Every piece between pipes, empty ones included: one more piece than pipes. */
  function Fields(s: string): (r: seq<string>)
    ensures |r| >= 1
    ensures AllPipeFree(r)
    ensures Join(r) == s
    decreases |s|
  {
    if s == [] then [[]]
    else
      var rest := Fields(s[1..]);
      if s[0] == Pipe then
        assert s == [Pipe] + s[1..];
        [[]] + rest
      else
        var r := [[s[0]] + rest[0]] + rest[1..];
        assert r[1..] == rest[1..];
        assert s == [s[0]] + s[1..];
        r
  }

  /** Removes empty fields from the end, as `split` does when its limit is zero. */
  function DropTrailingEmpty(fs: seq<string>): (r: seq<string>)
    ensures |r| <= |fs| && r == fs[..|r|]
    ensures r != [] ==> r[|r| - 1] != []
    ensures forall i :: |r| <= i < |fs| ==> fs[i] == []
  {
    if fs == [] then []
    else if fs[|fs| - 1] == [] then DropTrailingEmpty(fs[..|fs| - 1])
    else fs
  }

  /**
   * `line.split("\\|")`. A line without a pipe comes back as itself, even
   * when empty; otherwise the pieces between pipes, less trailing empty ones,
   * so a line made only of pipes gives no fields at all.
   */
  function JavaSplit(s: string): (r: seq<string>)
    ensures AllPipeFree(r)
    ensures PipeFree(s) ==> r == [s]
    ensures !PipeFree(s) && r != [] ==> r[|r| - 1] != []
  {
    if PipeFree(s) then [s] else DropTrailingEmpty(Fields(s))
  }

  /** `split` yields no fields exactly for a non-empty line made only of pipes. */
  lemma SplitIsEmptyIff(s: string)
    ensures JavaSplit(s) == [] <==> s != [] && forall i :: 0 <= i < |s| ==> s[i] == Pipe
  {
    if PipeFree(s) {
      if s != [] {
        assert s[0] in s;
      }
    } else {
      var fs := Fields(s);
      if DropTrailingEmpty(fs) == [] {
        AllEmptyFieldsJoinToPipes(fs);
      }
      if s != [] && forall i :: 0 <= i < |s| ==> s[i] == Pipe {
        PipesHaveEmptyFields(s);
        assert DropTrailingEmpty(fs) == [];
      }
    }
  }

  lemma {:induction false} AllEmptyFieldsJoinToPipes(fs: seq<string>)
    requires forall i :: 0 <= i < |fs| ==> fs[i] == []
    ensures forall i :: 0 <= i < |Join(fs)| ==> Join(fs)[i] == Pipe
  {
    if |fs| > 1 {
      AllEmptyFieldsJoinToPipes(fs[1..]);
    }
  }

  lemma {:induction false} PipesHaveEmptyFields(s: string)
    requires forall i :: 0 <= i < |s| ==> s[i] == Pipe
    ensures forall i :: 0 <= i < |Fields(s)| ==> Fields(s)[i] == []
    decreases |s|
  {
    if s != [] {
      PipesHaveEmptyFields(s[1..]);
    }
  }

  /** Splitting a pipe-free field followed by a pipe peels off exactly that field. */
  lemma {:induction false} FieldsOfJoinHead(a: string, b: string)
    requires PipeFree(a)
    ensures Fields(a + [Pipe] + b) == [a] + Fields(b)
    decreases |a|
  {
    if a == [] {
      assert (a + [Pipe] + b)[1..] == b;
    } else {
      assert (a + [Pipe] + b)[1..] == a[1..] + [Pipe] + b;
      FieldsOfJoinHead(a[1..], b);
      assert [a[0]] + a[1..] == a;
    }
  }

  /** Pipe-free fields survive joining and cutting at every pipe. */
  lemma {:induction false} FieldsOfJoin(fs: seq<string>)
    requires |fs| >= 1 && AllPipeFree(fs)
    ensures Fields(Join(fs)) == fs
  {
    if |fs| == 1 {
      PipeFreeIsOneField(fs[0]);
    } else {
      FieldsOfJoinHead(fs[0], Join(fs[1..]));
      FieldsOfJoin(fs[1..]);
      assert fs == [fs[0]] + fs[1..];
    }
  }

  lemma {:induction false} PipeFreeIsOneField(s: string)
    requires PipeFree(s)
    ensures Fields(s) == [s]
    decreases |s|
  {
    if s != [] {
      PipeFreeIsOneField(s[1..]);
      assert [s[0]] + s[1..] == s;
    }
  }

  lemma {:induction false} JoinHasPipe(fs: seq<string>)
    requires |fs| >= 2
    ensures !PipeFree(Join(fs))
  {
    var j := Join(fs);
    assert j[|fs[0]|] == Pipe;
  }

  /**
   * The split/join round trip: joining pipe-free fields whose last one is
   * not empty and splitting the line again gives back the same fields.
   */
  lemma SplitJoin(fs: seq<string>)
    requires |fs| >= 1 && AllPipeFree(fs)
    requires |fs| >= 2 ==> fs[|fs| - 1] != []
    ensures JavaSplit(Join(fs)) == fs
  {
    if |fs| == 1 {
      assert Join(fs) == fs[0];
    } else {
      JoinHasPipe(fs);
      FieldsOfJoin(fs);
    }
  }

  /**
   * An empty last field is lost: joining pipe-free fields ending in an empty
   * one and splitting gives back fewer fields.
   */
  lemma TrailingEmptyFieldIsDropped(fs: seq<string>)
    requires |fs| >= 2 && AllPipeFree(fs)
    requires fs[|fs| - 1] == []
    ensures JavaSplit(Join(fs)) == DropTrailingEmpty(fs)
    ensures |JavaSplit(Join(fs))| < |fs|
  {
    JoinHasPipe(fs);
    FieldsOfJoin(fs);
  }
}
