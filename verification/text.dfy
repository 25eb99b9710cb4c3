/** String helpers shared by the ingestion and query paths: optional values,
    concatenation and joining of string sequences (JavaScript's `+=` loops and
    `Array.prototype.join`), and the JavaScript notion of white space used by
    `String.prototype.trim`. */
module Text {

  /** An optional value; `None` stands for JavaScript's `undefined` or for an
      awaited call that threw. */
  datatype Option<+T> = None | Some(value: T)

  /** All strings of `xs`, one after the other. */
  function Concat(xs: seq<string>): string
  {
    if |xs| == 0 then "" else xs[0] + Concat(xs[1..])
  }

  /** Concatenation distributes over sequence append. */
  lemma {:induction false} ConcatAppend(xs: seq<string>, ys: seq<string>)
    ensures Concat(xs + ys) == Concat(xs) + Concat(ys)
  {
    if |xs| == 0 {
      assert xs + ys == ys;
    } else {
      assert (xs + ys)[1..] == xs[1..] + ys;
      ConcatAppend(xs[1..], ys);
    }
  }

  /** The strings of `xs` separated by `sep`, as `xs.join(sep)` in JavaScript. */
  function Join(xs: seq<string>, sep: string): string
  {
    if |xs| == 0 then ""
    else if |xs| == 1 then xs[0]
    else xs[0] + sep + Join(xs[1..], sep)
  }

  /** Every string of `xs` followed by `sep`: what a loop doing
      `acc += x + sep` builds. */
  function Terminated(xs: seq<string>, sep: string): string
  {
    if |xs| == 0 then "" else xs[0] + sep + Terminated(xs[1..], sep)
  }

  /** Appending one more item adds exactly that item and one separator. */
  lemma {:induction false} TerminatedSnoc(xs: seq<string>, x: string, sep: string)
    ensures Terminated(xs + [x], sep) == Terminated(xs, sep) + x + sep
  {
    if |xs| == 0 {
      assert xs + [x] == [x];
    } else {
      assert (xs + [x])[1..] == xs[1..] + [x];
      TerminatedSnoc(xs[1..], x, sep);
    }
  }

  /** A non-empty terminated list is the joined list plus one trailing separator. */
  lemma {:induction false} TerminatedIsJoinPlusSeparator(xs: seq<string>, sep: string)
    requires |xs| > 0
    ensures Terminated(xs, sep) == Join(xs, sep) + sep
  {
    if |xs| > 1 {
      TerminatedIsJoinPlusSeparator(xs[1..], sep);
    }
  }

  /** JavaScript's `s.slice(0, -1)`: the end index is `|s| - 1`, clamped at 0. */
  function SliceDropLast(s: string): (r: string)
    ensures |s| > 0 ==> s == r + [s[|s| - 1]]
    ensures |s| == 0 ==> r == ""
  {
    var end := if |s| - 1 < 0 then 0 else |s| - 1;
    s[..end]
  }

  /** `needle` occurs in `hay` starting at index `k`. */
  predicate OccursAt(needle: string, hay: string, k: int)
  {
    0 <= k <= |hay| - |needle| && hay[k..k + |needle|] == needle
  }

  /** `needle` occurs somewhere inside `hay`. */
  ghost predicate Infix(needle: string, hay: string)
  {
    exists k :: OccursAt(needle, hay, k)
  }

  lemma InfixOfConcat(a: string, needle: string, b: string)
    ensures Infix(needle, a + needle + b)
  {
    var hay := a + needle + b;
    assert OccursAt(needle, hay, |a|);
  }

  /** Label-value-label windows of a nine-piece concatenation. */
  lemma NinePieceWindows(a: string, b: string, c: string, d: string, e: string,
                         f: string, g: string, h: string, i: string)
    ensures OccursAt(a + b + c, a + b + c + d + e + f + g + h + i, 0)
    ensures Infix(c + d + e, a + b + c + d + e + f + g + h + i)
    ensures Infix(e + f + g, a + b + c + d + e + f + g + h + i)
    ensures Infix(g + h + i, a + b + c + d + e + f + g + h + i)
  {
    var all := a + b + c + d + e + f + g + h + i;
    assert all == (a + b + c) + (d + e + f + g + h + i);
    assert all == (a + b) + (c + d + e) + (f + g + h + i);
    InfixOfConcat(a + b, c + d + e, f + g + h + i);
    assert all == (a + b + c + d) + (e + f + g) + (h + i);
    InfixOfConcat(a + b + c + d, e + f + g, h + i);
    assert all == (a + b + c + d + e + f) + (g + h + i) + "";
    InfixOfConcat(a + b + c + d + e + f, g + h + i, "");
  }

  /** White space and line terminators removed by `String.prototype.trim`
      (ECMAScript WhiteSpace and LineTerminator code points). */
  predicate IsJsWhitespace(c: char)
  {
    || c == '\t' || c == '\n' || c == '\U{000B}' || c == '\U{000C}' || c == '\r'
    || c == ' ' || c == '\U{00A0}' || c == '\U{1680}'
    || ('\U{2000}' <= c <= '\U{200A}')
    || c == '\U{2028}' || c == '\U{2029}' || c == '\U{202F}' || c == '\U{205F}'
    || c == '\U{3000}' || c == '\U{FEFF}'
  }

  function TrimStart(s: string): string
  {
    if |s| > 0 && IsJsWhitespace(s[0]) then TrimStart(s[1..]) else s
  }

  function TrimEnd(s: string): string
  {
    if |s| > 0 && IsJsWhitespace(s[|s| - 1]) then TrimEnd(s[..|s| - 1]) else s
  }

  /** `s.trim()`. */
  function Trim(s: string): string
  {
    TrimEnd(TrimStart(s))
  }

  predicate AllWhitespace(s: string)
  {
    forall i :: 0 <= i < |s| ==> IsJsWhitespace(s[i])
  }

  lemma {:induction false} TrimStartEmptyIff(s: string)
    ensures TrimStart(s) == "" <==> AllWhitespace(s)
  {
    if |s| > 0 && IsJsWhitespace(s[0]) {
      TrimStartEmptyIff(s[1..]);
      if AllWhitespace(s[1..]) {
        forall i | 0 <= i < |s| ensures IsJsWhitespace(s[i]) {
          if i > 0 { assert s[i] == s[1..][i - 1]; }
        }
      }
    }
  }

  /** TrimStart leaves a string that is empty or starts with a non-space. */
  lemma {:induction false} TrimStartLeadsWithNonSpace(s: string)
    ensures TrimStart(s) == "" || !IsJsWhitespace(TrimStart(s)[0])
  {
    if |s| > 0 && IsJsWhitespace(s[0]) {
      TrimStartLeadsWithNonSpace(s[1..]);
    }
  }

  /** TrimEnd of a string starting with a non-space keeps that first character. */
  lemma {:induction false} TrimEndKeepsNonSpaceHead(s: string)
    requires |s| > 0 && !IsJsWhitespace(s[0])
    ensures TrimEnd(s) != ""
  {
    if IsJsWhitespace(s[|s| - 1]) {
      assert |s| > 1;
      assert s[..|s| - 1][0] == s[0];
      TrimEndKeepsNonSpaceHead(s[..|s| - 1]);
    }
  }

  /** The trimmed text is empty exactly when every character is white space:
      the condition under which `if (input.trim())` is false. */
  lemma TrimEmptyIff(s: string)
    ensures Trim(s) == "" <==> AllWhitespace(s)
  {
    TrimStartEmptyIff(s);
    TrimStartLeadsWithNonSpace(s);
    if TrimStart(s) != "" {
      TrimEndKeepsNonSpaceHead(TrimStart(s));
    }
  }
}
