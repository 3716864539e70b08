/**
 * The few Python `str` operations the server builder relies on, as functions
 * over `seq<char>`: `lstrip` with a one-character argument, `split` on a
 * one-character separator (with `join` as its inverse), `replace`, and
 * `format` restricted to single-digit positional fields.
 */
module Strings {
  import opened Wrappers

  /** `s.lstrip(c)`: every leading `c` removed, not just the first. */
  function LStrip(s: string, c: char): (r: string)
    ensures |r| <= |s| && r == s[|s| - |r|..]
    ensures forall i :: 0 <= i < |s| - |r| ==> s[i] == c
    ensures r == [] || r[0] != c
    decreases |s|
  {
    if s != [] && s[0] == c then LStrip(s[1..], c) else s
  }

  /** Number of occurrences of `c` in `s`. */
  function CountChar(s: string, c: char): (n: nat)
    ensures n <= |s|
    ensures n == 0 <==> c !in s
    decreases |s|
  {
    if s == [] then 0 else (if s[0] == c then 1 else 0) + CountChar(s[1..], c)
  }

  lemma {:induction false} CountCharAppend(a: string, b: string, c: char)
    ensures CountChar(a + b, c) == CountChar(a, c) + CountChar(b, c)
    decreases |a|
  {
    if a == [] {
      assert a + b == b;
    } else {
      assert (a + b)[1..] == a[1..] + b;
      CountCharAppend(a[1..], b, c);
    }
  }

  /** `s.split(sep)`: always at least one piece, one more than there are separators. */
  function Split(s: string, sep: char): (parts: seq<string>)
    ensures |parts| == CountChar(s, sep) + 1
    ensures forall i :: 0 <= i < |parts| ==> sep !in parts[i]
    decreases |s|
  {
    if s == [] then [[]]
    else
      var rest := Split(s[1..], sep);
      if s[0] == sep then [[]] + rest
      else [[s[0]] + rest[0]] + rest[1..]
  }

  /** `sep.join(parts)`. */
  function Join(parts: seq<string>, sep: char): (s: string)
    decreases |parts|
  {
    if parts == [] then []
    else if |parts| == 1 then parts[0]
    else parts[0] + [sep] + Join(parts[1..], sep)
  }

  /** Joining the pieces of a split gives back the original text. */
  lemma {:induction false} JoinSplit(s: string, sep: char)
    ensures Join(Split(s, sep), sep) == s
    decreases |s|
  {
    if s != [] {
      var rest := Split(s[1..], sep);
      JoinSplit(s[1..], sep);
      if s[0] == sep {
        assert Split(s, sep)[1..] == rest;
      } else if |rest| == 1 {
        assert Split(s, sep) == [[s[0]] + rest[0]];
        assert s == [s[0]] + s[1..];
      } else {
        var parts := Split(s, sep);
        assert parts[1..] == rest[1..];
        assert Join(rest, sep) == rest[0] + [sep] + Join(rest[1..], sep);
        assert s == [s[0]] + s[1..];
      }
    }
  }

  /** `pat` occurs in `s` starting at index `i`. */
  predicate OccursAt(s: string, pat: string, i: nat)
  {
    i + |pat| <= |s| && s[i..i + |pat|] == pat
  }

  /** Python's `pat in s`. */
  predicate Contains(s: string, pat: string)
  {
    exists i: nat :: i <= |s| && OccursAt(s, pat, i)
  }

  /**
   * `s.replace(pat, rep)` for a non-empty `pat`: scans left to right and
   * replaces every non-overlapping occurrence; after a match the scan resumes
   * just past it.
   */
  function Replace(s: string, pat: string, rep: string): (r: string)
    requires pat != []
    decreases |s|
  {
    if |s| < |pat| then s
    else if s[..|pat|] == pat then rep + Replace(s[|pat|..], pat, rep)
    else [s[0]] + Replace(s[1..], pat, rep)
  }

  lemma OccursInTail(s: string, pat: string, k: nat, i: nat)
    requires k <= |s| && OccursAt(s[k..], pat, i)
    ensures OccursAt(s, pat, k + i)
  {
    assert s[k..][i..i + |pat|] == s[k + i..k + i + |pat|];
  }

  /** Text that does not contain the pattern is left exactly as it is. */
  lemma {:induction false} ReplaceAbsent(s: string, pat: string, rep: string)
    requires pat != []
    requires !Contains(s, pat)
    ensures Replace(s, pat, rep) == s
    decreases |s|
  {
    if |s| >= |pat| {
      assert !OccursAt(s, pat, 0);
      if Contains(s[1..], pat) {
        var i: nat :| i <= |s[1..]| && OccursAt(s[1..], pat, i);
        OccursInTail(s, pat, 1, i);
        assert false;
      }
      ReplaceAbsent(s[1..], pat, rep);
      assert s == [s[0]] + s[1..];
    }
  }

  /**
   * The scan rewrites the first match and resumes just past it: when no
   * match starts in `h`, the text `h + pat + t` becomes `h`, the
   * replacement, and the rewrite of `t`. Applied again to `t`, this gives
   * the result for any number of matches.
   */
  lemma {:induction false} ReplaceFirstMatch(h: string, pat: string, t: string, rep: string)
    requires pat != []
    requires forall i: nat :: i < |h| ==> !OccursAt(h + pat + t, pat, i)
    ensures Replace(h + pat + t, pat, rep) == h + rep + Replace(t, pat, rep)
    decreases |h|
  {
    var s := h + pat + t;
    if h == [] {
      assert s == pat + t;
      assert s[..|pat|] == pat;
      assert s[|pat|..] == t;
    } else {
      assert !OccursAt(s, pat, 0);
      assert s[1..] == h[1..] + pat + t;
      forall i: nat | i < |h[1..]|
        ensures !OccursAt(h[1..] + pat + t, pat, i)
      {
        if OccursAt(h[1..] + pat + t, pat, i) {
          OccursInTail(s, pat, 1, i);
          assert false;
        }
      }
      ReplaceFirstMatch(h[1..], pat, t, rep);
      assert h + rep + Replace(t, pat, rep) == [h[0]] + (h[1..] + rep + Replace(t, pat, rep));
    }
  }

  /**
   * One part of a `str.format` template: literal text, or a positional
   * replacement field `{index}`.
   */
  datatype Piece = Text(text: string) | Field(index: nat)

  /** Every replacement field of `template` names one of the first `n` arguments. */
  predicate FieldsBelow(template: seq<Piece>, n: nat)
  {
    forall i :: 0 <= i < |template| && template[i].Field? ==> template[i].index < n
  }

  /**
   * `template.format(*args)` with the template already cut into its pieces:
   * each field is replaced by the argument it names; a field past the end of
   * `args` is an error, as Python's `IndexError` is.
   */
  function Fill(template: seq<Piece>, args: seq<string>): (r: Option<string>)
    ensures r.Some? <==> FieldsBelow(template, |args|)
    decreases |template|
  {
    if template == [] then Some([])
    else
      var rest := Fill(template[1..], args);
      assert FieldsBelow(template, |args|) <==>
               (template[0].Field? ==> template[0].index < |args|) && FieldsBelow(template[1..], |args|)
      by {
        if FieldsBelow(template[1..], |args|) && (template[0].Field? ==> template[0].index < |args|) {
          forall i | 0 <= i < |template| && template[i].Field? ensures template[i].index < |args| {
            if i > 0 { assert template[i] == template[1..][i - 1]; }
          }
        }
      }
      match template[0]
      case Text(t) => if rest.Some? then Some(t + rest.value) else None
      case Field(n) => if n < |args| && rest.Some? then Some(args[n] + rest.value) else None
  }

  /** Filling a template made of two parts is filling each part and joining them. */
  lemma {:induction false} FillAppend(a: seq<Piece>, b: seq<Piece>, args: seq<string>)
    requires FieldsBelow(a, |args|) && FieldsBelow(b, |args|)
    ensures FieldsBelow(a + b, |args|)
    ensures Fill(a + b, args).value == Fill(a, args).value + Fill(b, args).value
    decreases |a|
  {
    if a == [] {
      assert a + b == b;
    } else {
      assert (a + b)[1..] == a[1..] + b;
      assert (a + b)[0] == a[0];
      assert FieldsBelow(a[1..], |args|) by {
        forall i | 0 <= i < |a[1..]| && a[1..][i].Field? ensures a[1..][i].index < |args| {
          assert a[1..][i] == a[i + 1];
        }
      }
      FillAppend(a[1..], b, args);
    }
  }

  lemma CancelPrefix(p: string, s: string, t: string)
    requires p + s == p + t
    ensures s == t
  {
    assert s == (p + s)[|p|..];
    assert t == (p + t)[|p|..];
  }

  lemma CancelSuffix(s: string, t: string, q: string)
    requires s + q == t + q
    ensures s == t
  {
    assert s == (s + q)[..|s|];
    assert t == (t + q)[..|t|];
  }

  /**
   * Text up to the first space is determined: when two space-free words are
   * each followed by something starting with a space, equal texts mean equal
   * words and equal remainders.
   */
  lemma FirstWordUnique(x: string, r: string, y: string, q: string)
    requires ' ' !in x && ' ' !in y
    requires r != [] && r[0] == ' ' && q != [] && q[0] == ' '
    requires x + r == y + q
    ensures x == y && r == q
  {
    assert (x + r)[|x|] == ' ';
    assert (y + q)[|y|] == ' ';
    assert forall k :: 0 <= k < |x| ==> (x + r)[k] == x[k];
    assert forall k :: 0 <= k < |y| ==> (y + q)[k] == y[k];
    assert |x| == |y|;
    assert x == (x + r)[..|x|];
    assert y == (y + q)[..|y|];
    CancelPrefix(x, r, q);
  }
}
