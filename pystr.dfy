/** The parts of Python's built-in `str` that the caption code relies on:
    `isspace`, `strip()`, `split()` with no separator, and `sep.join(parts)`. */
module PyStr {

  /** Python's `str.isspace()` for one character: the ASCII whitespace and
      information-separator controls, NEL, NBSP, and the Unicode space,
      line and paragraph separators. */
  predicate IsSpace(c: char) {
    var n := c as int;
    || n == 0x20
    || 0x09 <= n <= 0x0D
    || 0x1C <= n <= 0x1F
    || n == 0x85
    || n == 0xA0
    || n == 0x1680
    || 0x2000 <= n <= 0x200A
    || n == 0x2028
    || n == 0x2029
    || n == 0x202F
    || n == 0x205F
    || n == 0x3000
  }

  predicate NoSpace(s: string) {
    forall i :: 0 <= i < |s| ==> !IsSpace(s[i])
  }

  predicate AllSpace(s: string) {
    forall i :: 0 <= i < |s| ==> IsSpace(s[i])
  }

  /** A token as `split()` produces it: non-empty, no whitespace inside. */
  predicate IsToken(w: string) {
    w != [] && NoSpace(w)
  }

  /** `s.lstrip()`: the suffix of `s` left after its leading whitespace. */
  function TrimStart(s: string): (r: string)
    ensures |r| <= |s| && r == s[|s| - |r|..]
    ensures AllSpace(s[..|s| - |r|])
    ensures r == [] || !IsSpace(r[0])
  {
    if s != [] && IsSpace(s[0]) then
      var r := TrimStart(s[1..]);
      assert s[..|s| - |r|] == [s[0]] + s[1..][..|s| - 1 - |r|];
      r
    else s
  }

  /** `s.rstrip()`: the prefix of `s` left before its trailing whitespace. */
  function TrimEnd(s: string): (r: string)
    ensures |r| <= |s| && r == s[..|r|]
    ensures AllSpace(s[|r|..])
    ensures r == [] || !IsSpace(r[|r| - 1])
  {
    if s != [] && IsSpace(s[|s| - 1]) then
      var r := TrimEnd(s[..|s| - 1]);
      assert s[|r|..] == s[..|s| - 1][|r|..] + [s[|s| - 1]];
      r
    else s
  }

  /** `s.strip()`: leading and trailing whitespace removed. */
  function Strip(s: string): (r: string)
    ensures |r| <= |s|
    ensures r == [] || (!IsSpace(r[0]) && !IsSpace(r[|r| - 1]))
    ensures r == [] <==> AllSpace(s)
  {
    var t := TrimStart(s);
    var r := TrimEnd(t);
    assert r == [] ==> AllSpace(t) by {
      if r == [] { assert t[|r|..] == t; }
    }
    assert t != [] ==> t[0] == s[|s| - |t|];
    assert r == [] ==> AllSpace(s) by {
      if r == [] {
        assert s == s[..|s| - |t|] + t;
      }
    }
    r
  }

  /** What `strip()` removes is whitespace, on both sides of what it keeps. */
  lemma StripDecomposes(s: string)
    ensures exists i :: 0 <= i <= |s| - |Strip(s)|
                        && s[i..i + |Strip(s)|] == Strip(s)
                        && AllSpace(s[..i]) && AllSpace(s[i + |Strip(s)|..])
  {
    var t := TrimStart(s);
    var r := TrimEnd(t);
    assert Strip(s) == r;
    var i := |s| - |t|;
    assert s[i..i + |r|] == r by {
      assert s[i..] == t;
    }
    assert AllSpace(s[i + |r|..]) by {
      assert s[i + |r|..] == t[|r|..];
    }
    assert AllSpace(s[..i]);
  }

  /** Stripping twice is stripping once. */
  lemma StripIdempotent(s: string)
    ensures Strip(Strip(s)) == Strip(s)
  {
  }

  /** One step of the scan behind `split()`: a finished word joins the
      tokens, an empty one is dropped. */
  function Flush(word: string, done: seq<string>): seq<string> {
    if word == [] then done else done + [word]
  }

  /** The left-to-right scan Python's `split()` performs: `word` holds the
      characters of the token being read, `done` the tokens already complete.
      A whitespace character ends the current token; any other extends it. */
  function SplitScan(s: string, word: string, done: seq<string>): seq<string>
    decreases |s|
  {
    if s == [] then Flush(word, done)
    else if IsSpace(s[0]) then SplitScan(s[1..], [], Flush(word, done))
    else SplitScan(s[1..], word + [s[0]], done)
  }

  /** `s.split()`: the maximal runs of non-whitespace characters, in order. */
  function Split(s: string): (r: seq<string>)
    ensures |r| <= |s|
  {
    ScanLength(s, [], []);
    SplitScan(s, [], [])
  }

  /** The scan completes at most one token per character read, plus the one
      it holds. */
  lemma {:induction false} ScanLength(s: string, word: string, done: seq<string>)
    ensures |SplitScan(s, word, done)| <= |done| + |s| + (if word == [] then 0 else 1)
    decreases |s|
  {
    if s != [] {
      if IsSpace(s[0]) {
        ScanLength(s[1..], [], Flush(word, done));
      } else {
        ScanLength(s[1..], word + [s[0]], done);
      }
    }
  }

  /** Every piece `split()` yields is a token. */
  lemma SplitTokens(s: string)
    ensures forall w :: w in Split(s) ==> IsToken(w)
  {
    ScanTokens(s, [], []);
  }

  /** The scan only ever completes well-formed tokens. */
  lemma {:induction false} ScanTokens(s: string, word: string, done: seq<string>)
    requires NoSpace(word)
    requires forall w :: w in done ==> IsToken(w)
    ensures forall w :: w in SplitScan(s, word, done) ==> IsToken(w)
    decreases |s|
  {
    if s == [] {
    } else if IsSpace(s[0]) {
      ScanTokens(s[1..], [], Flush(word, done));
    } else {
      ScanTokens(s[1..], word + [s[0]], done);
    }
  }

  /** The scan never takes back a completed token. */
  lemma {:induction false} ScanExtends(s: string, word: string, done: seq<string>)
    ensures |SplitScan(s, word, done)| >= |done|
    ensures SplitScan(s, word, done)[..|done|] == done
    ensures word != [] ==> |SplitScan(s, word, done)| > |done|
    decreases |s|
  {
    if s == [] {
    } else if IsSpace(s[0]) {
      var next := Flush(word, done);
      ScanExtends(s[1..], [], next);
      assert next[..|done|] == done;
      assert SplitScan(s, word, done)[..|done|] == SplitScan(s, word, done)[..|next|][..|done|];
    } else {
      ScanExtends(s[1..], word + [s[0]], done);
    }
  }

  /** `sep.join(parts)`. */
  function Join(parts: seq<string>, sep: string): string {
    if parts == [] then ""
    else if |parts| == 1 then parts[0]
    else parts[0] + sep + Join(parts[1..], sep)
  }

  /** Joining whitespace-free parts puts whitespace only where the separator is. */
  lemma {:induction false} JoinNoSpace(parts: seq<string>, sep: string)
    requires forall i :: 0 <= i < |parts| ==> NoSpace(parts[i])
    ensures forall k :: 0 <= k < |Join(parts, sep)| ==> Join(parts, sep)[k] in sep || !IsSpace(Join(parts, sep)[k])
    decreases |parts|
  {
    if |parts| > 1 {
      var tail := Join(parts[1..], sep);
      forall i | 0 <= i < |parts[1..]| ensures NoSpace(parts[1..][i]) {
        assert parts[1..][i] == parts[i + 1];
      }
      JoinNoSpace(parts[1..], sep);
      var r := parts[0] + sep + tail;
      assert Join(parts, sep) == r;
      forall k | 0 <= k < |r| ensures r[k] in sep || !IsSpace(r[k]) {
        if k < |parts[0]| {
          assert NoSpace(parts[0]);
        } else if k < |parts[0]| + |sep| {
          assert r[k] == sep[k - |parts[0]|];
        } else {
          assert r[k] == tail[k - |parts[0]| - |sep|];
        }
      }
    } else if |parts| == 1 {
      assert NoSpace(parts[0]);
    }
  }

  /** Concatenation of a sequence of strings. */
  function Concat(ws: seq<string>): string {
    if ws == [] then "" else ws[0] + Concat(ws[1..])
  }

  /** `s` with every whitespace character removed. */
  function RemoveSpaces(s: string): string {
    if s == [] then "" else (if IsSpace(s[0]) then "" else [s[0]]) + RemoveSpaces(s[1..])
  }

  lemma {:induction false} ConcatSnoc(ws: seq<string>, w: string)
    ensures Concat(ws + [w]) == Concat(ws) + w
    decreases |ws|
  {
    if ws == [] {
      assert ws + [w] == [w];
    } else {
      assert (ws + [w])[1..] == ws[1..] + [w];
      ConcatSnoc(ws[1..], w);
    }
  }

  /** The scan's output, put back together, is what it had plus the
      non-whitespace characters still to read. */
  lemma {:induction false} ScanKeepsNonSpace(s: string, word: string, done: seq<string>)
    ensures Concat(SplitScan(s, word, done)) == Concat(done) + word + RemoveSpaces(s)
    decreases |s|
  {
    if s == [] {
      FlushConcat(word, done);
    } else {
      var c := s[0];
      assert RemoveSpaces(s) == (if IsSpace(c) then "" else [c]) + RemoveSpaces(s[1..]);
      if IsSpace(c) {
        ScanKeepsNonSpace(s[1..], [], Flush(word, done));
        FlushConcat(word, done);
      } else {
        ScanKeepsNonSpace(s[1..], word + [c], done);
      }
    }
  }

  lemma FlushConcat(word: string, done: seq<string>)
    ensures Concat(Flush(word, done)) == Concat(done) + word
  {
    if word != [] { ConcatSnoc(done, word); }
  }

  /** `split()` invents no character and loses none but whitespace: its tokens,
      put back together, are the input with the whitespace taken out. */
  lemma SplitKeepsNonSpace(s: string)
    ensures Concat(Split(s)) == RemoveSpaces(s)
  {
    ScanKeepsNonSpace(s, [], []);
  }

  lemma {:induction false} ScanEmptyIff(s: string, word: string)
    ensures SplitScan(s, word, []) == [] <==> word == [] && AllSpace(s)
    decreases |s|
  {
    if s != [] {
      assert AllSpace(s) <==> IsSpace(s[0]) && AllSpace(s[1..]);
      if IsSpace(s[0]) {
        ScanEmptyIff(s[1..], []);
        if word != [] {
          assert Flush(word, []) == [word];
          ScanExtends(s[1..], [], [word]);
        }
      } else {
        ScanExtends(s[1..], word + [s[0]], []);
      }
    }
  }

  /** `split()` yields nothing exactly when the input is empty or all whitespace. */
  lemma SplitEmptyIff(s: string)
    ensures Split(s) == [] <==> AllSpace(s)
  {
    ScanEmptyIff(s, []);
  }

  /** Reading only whitespace just finishes the current token. */
  lemma {:induction false} ScanSpaces(sp: string, word: string, done: seq<string>)
    requires AllSpace(sp)
    ensures SplitScan(sp, word, done) == Flush(word, done)
    decreases |sp|
  {
    if sp != [] {
      ScanSpaces(sp[1..], [], Flush(word, done));
    }
  }

  /** Whitespace after the last character does not change what the scan yields. */
  lemma {:induction false} ScanTrailingSpace(s: string, sp: string, word: string, done: seq<string>)
    requires AllSpace(sp)
    ensures SplitScan(s + sp, word, done) == SplitScan(s, word, done)
    decreases |s|
  {
    if s == [] {
      assert s + sp == sp;
      ScanSpaces(sp, word, done);
    } else {
      assert (s + sp)[0] == s[0];
      assert (s + sp)[1..] == s[1..] + sp;
      if IsSpace(s[0]) {
        ScanTrailingSpace(s[1..], sp, [], Flush(word, done));
      } else {
        ScanTrailingSpace(s[1..], sp, word + [s[0]], done);
      }
    }
  }

  /** Whitespace in front, read between tokens, does not change what the scan yields. */
  lemma {:induction false} ScanLeadingSpace(lead: string, s: string, done: seq<string>)
    requires AllSpace(lead)
    ensures SplitScan(lead + s, [], done) == SplitScan(s, [], done)
    decreases |lead|
  {
    if lead == [] {
      assert lead + s == s;
    } else {
      assert (lead + s)[0] == lead[0];
      assert (lead + s)[1..] == lead[1..] + s;
      ScanLeadingSpace(lead[1..], s, done);
    }
  }

  /** `split()` after `lstrip()` is plain `split()`. */
  lemma SplitTrimStart(s: string)
    ensures Split(TrimStart(s)) == Split(s)
  {
    var t := TrimStart(s);
    assert s == s[..|s| - |t|] + t;
    ScanLeadingSpace(s[..|s| - |t|], t, []);
  }

  /** `split()` after `rstrip()` is plain `split()`. */
  lemma SplitTrimEnd(t: string)
    ensures Split(TrimEnd(t)) == Split(t)
  {
    var r := TrimEnd(t);
    assert t == r + t[|r|..];
    ScanTrailingSpace(r, t[|r|..], [], []);
  }

  /** Python's `split()` after `strip()` is plain `split()`. */
  lemma SplitStrip(s: string)
    ensures Split(Strip(s)) == Split(s)
  {
    SplitTrimStart(s);
    SplitTrimEnd(TrimStart(s));
    assert Strip(s) == TrimEnd(TrimStart(s));
  }

  /** Tokens the scan has already completed stay in front of whatever it
      completes from then on. */
  lemma {:induction false} ScanDone(s: string, word: string, done: seq<string>)
    ensures SplitScan(s, word, done) == done + SplitScan(s, word, [])
    decreases |s|
  {
    if s == [] {
      assert done + [] == done;
    } else if IsSpace(s[0]) {
      ScanDone(s[1..], [], Flush(word, done));
      ScanDone(s[1..], [], Flush(word, []));
      assert Flush(word, done) == done + Flush(word, []);
    } else {
      ScanDone(s[1..], word + [s[0]], done);
    }
  }

  /** A non-empty run of whitespace ends the current token: what follows it is
      split on its own. */
  lemma {:induction false} ScanSeparated(a: string, sp: string, b: string, word: string)
    requires AllSpace(sp) && sp != []
    ensures SplitScan(a + sp + b, word, []) == SplitScan(a, word, []) + Split(b)
    decreases |a|
  {
    if a == [] {
      assert a + sp + b == [sp[0]] + (sp[1..] + b);
      assert IsSpace(sp[0]);
      ScanLeadingSpace(sp[1..], b, Flush(word, []));
      ScanDone(b, [], Flush(word, []));
    } else {
      assert (a + sp + b)[0] == a[0];
      assert (a + sp + b)[1..] == a[1..] + sp + b;
      if IsSpace(a[0]) {
        ScanDone(a[1..] + sp + b, [], Flush(word, []));
        ScanSeparated(a[1..], sp, b, []);
        ScanDone(a[1..], [], Flush(word, []));
      } else {
        ScanSeparated(a[1..], sp, b, word + [a[0]]);
      }
    }
  }

  /** Every run of whitespace, spaces, tabs or line breaks alike, separates
      tokens: splitting around it is splitting each side. */
  lemma SplitSeparated(a: string, sp: string, b: string)
    requires AllSpace(sp) && sp != []
    ensures Split(a + sp + b) == Split(a) + Split(b)
  {
    ScanSeparated(a, sp, b, []);
  }

  /** A tab separates two tags just as a space does. */
  lemma SplitTab()
    ensures Split("#a\t#b") == ["#a", "#b"]
  {
    assert "#a\t#b" == "#a" + "\t" + "#b";
    assert IsSpace('\t');
    SplitSeparated("#a", "\t", "#b");
    SplitJoin(["#a"]);
    SplitJoin(["#b"]);
  }

  /** Reading a run of non-whitespace characters appends them to the current token. */
  lemma {:induction false} ScanWord(w: string, x: string, word: string, done: seq<string>)
    requires NoSpace(w)
    ensures SplitScan(w + x, word, done) == SplitScan(x, word + w, done)
    decreases |w|
  {
    if w == [] {
      assert w + x == x;
      assert word + w == word;
    } else {
      assert (w + x)[0] == w[0];
      assert (w + x)[1..] == w[1..] + x;
      ScanWord(w[1..], x, word + [w[0]], done);
      assert word + [w[0]] + w[1..] == word + w;
    }
  }

  /** Scanning tokens joined by single spaces completes exactly those tokens. */
  lemma {:induction false} ScanJoin(tokens: seq<string>, done: seq<string>)
    requires forall w :: w in tokens ==> IsToken(w)
    ensures SplitScan(Join(tokens, " "), [], done) == done + tokens
    decreases |tokens|
  {
    if tokens == [] {
      assert done + tokens == done;
    } else if |tokens| == 1 {
      var w := tokens[0];
      assert w in tokens;
      assert w + [] == w;
      ScanWord(w, [], [], done);
      assert [] + w == w;
    } else {
      var w := tokens[0];
      var tail := Join(tokens[1..], " ");
      assert IsToken(w) by { assert w in tokens; }
      assert forall v :: v in tokens[1..] ==> IsToken(v) by {
        forall v | v in tokens[1..] ensures IsToken(v) { assert v in tokens; }
      }
      calc {
        SplitScan(Join(tokens, " "), [], done);
        { assert Join(tokens, " ") == w + (" " + tail); }
        SplitScan(w + (" " + tail), [], done);
        { ScanWord(w, " " + tail, [], done); assert [] + w == w; }
        SplitScan(" " + tail, w, done);
        { assert (" " + tail)[0] == ' ' && (" " + tail)[1..] == tail; }
        SplitScan(tail, [], done + [w]);
        { ScanJoin(tokens[1..], done + [w]); }
        done + [w] + tokens[1..];
        { assert tokens == [w] + tokens[1..]; }
        done + tokens;
      }
    }
  }

  /** `split()` undoes `" ".join(...)` on tokens: joining well-formed tokens with
      single spaces and splitting the result gives the tokens back. */
  lemma SplitJoin(tokens: seq<string>)
    requires forall w :: w in tokens ==> IsToken(w)
    ensures Split(Join(tokens, " ")) == tokens
  {
    ScanJoin(tokens, []);
    assert [] + tokens == tokens;
  }
}
