/** The per-platform hashtag policy and the two text helpers of the caption
    generator: cutting a hashtag string down to a platform's ideal count, and
    laying out caption, hashtags and call-to-action as one block. */
module Captions {
  import opened PyStr

  datatype Option<T> = None | Some(value: T)

  /** Ideal number of hashtags per platform. */
  const IdealHashtags: map<string, nat> :=
    map["tiktok" := 10, "instagram" := 20, "facebook" := 10,
        "twitter" := 5, "snapchat" := 5, "youtube" := 5]

  /** The cap used for a platform the table does not name. */
  const DefaultHashtagCap: nat := 10

  /** `IDEAL_HASHTAGS.get(platform, 10)`. */
  function HashtagCap(platform: string): (n: nat)
    ensures 5 <= n <= 20
    ensures platform !in IdealHashtags ==> n == DefaultHashtagCap
  {
    if platform in IdealHashtags then IdealHashtags[platform] else DefaultHashtagCap
  }

  /** The cap of each of the six platforms, and the default for any other name. */
  lemma HashtagCapTable(other: string)
    requires other !in {"tiktok", "instagram", "facebook", "twitter", "snapchat", "youtube"}
    ensures HashtagCap("tiktok") == 10 && HashtagCap("instagram") == 20
    ensures HashtagCap("facebook") == 10 && HashtagCap("twitter") == 5
    ensures HashtagCap("snapchat") == 5 && HashtagCap("youtube") == 5
    ensures HashtagCap(other) == 10
  {
  }

  /** How many elements Python's slice `xs[:n]` keeps of a list of `len`
      elements; a negative `n` counts from the end. */
  function SliceLength(len: nat, n: int): (k: nat)
    ensures k <= len
    ensures 0 <= n ==> k <= n && (k == n || k == len)
    ensures n < 0 ==> len - k <= -n && (k == 0 || len - k == -n)
  {
    if n >= 0 then (if n < len then n else len)
    else if len + n > 0 then len + n else 0
  }

  /** `truncate_hashtags(hashtags_str, max_count)`: the first `max_count`
      whitespace-separated tokens of the stripped string. */
  function TruncateHashtags(hashtags: string, maxCount: int): (r: seq<string>)
    ensures 0 <= maxCount ==> |r| <= maxCount
  {
    var tags := Split(Strip(hashtags));
    tags[..SliceLength(|tags|, maxCount)]
  }

  /** The cut keeps a prefix of the tokens of the whole string (stripping
      first changes nothing), at most `maxCount` of them and all of them when
      there are fewer; a negative count drops that many from the end. */
  lemma TruncateHashtagsSpec(hashtags: string, maxCount: int)
    ensures var r := TruncateHashtags(hashtags, maxCount);
            && r <= Split(hashtags)
            && (0 <= maxCount ==> |r| <= maxCount)
            && (0 <= maxCount ==> (|r| == maxCount || r == Split(hashtags)))
            && (maxCount < 0 ==> |r| == SliceLength(|Split(hashtags)|, maxCount))
            && (forall w :: w in r ==> IsToken(w))
            && (AllSpace(hashtags) ==> r == [])
  {
    SplitStrip(hashtags);
    SplitEmptyIff(hashtags);
    SplitTokens(hashtags);
  }

  /** `build_caption_block(caption, hashtags, cta)`: the caption, a blank line,
      the hashtags joined by single spaces, a blank line, the call-to-action. */
  function BuildCaptionBlock(caption: string, hashtags: seq<string>, cta: string): (r: string)
    ensures |r| == |caption| + |Join(hashtags, " ")| + |cta| + 4
  {
    caption + "\n\n" + Join(hashtags, " ") + "\n\n" + cta
  }

  /** The position of the first blank-line separator `"\n\n"` in `s`. */
  function FindBlankLine(s: string): (r: Option<nat>)
    ensures r.Some? ==> r.value + 1 < |s| && s[r.value] == '\n' && s[r.value + 1] == '\n'
    ensures r.Some? ==> forall i :: 0 <= i < r.value ==> !(s[i] == '\n' && s[i + 1] == '\n')
    ensures r.None? ==> forall i :: 0 <= i < |s| - 1 ==> !(s[i] == '\n' && s[i + 1] == '\n')
  {
    if |s| < 2 then None
    else if s[0] == '\n' && s[1] == '\n' then Some(0)
    else match FindBlankLine(s[1..])
      case None => None
      case Some(i) => Some(i + 1)
  }

  /** The position of the first line break in `s`. */
  function FindNewline(s: string): (r: Option<nat>)
    ensures r.Some? ==> r.value < |s| && s[r.value] == '\n'
    ensures r.Some? ==> forall i :: 0 <= i < r.value ==> s[i] != '\n'
    ensures r.None? ==> forall i :: 0 <= i < |s| ==> s[i] != '\n'
  {
    if s == [] then None
    else if s[0] == '\n' then Some(0)
    else match FindNewline(s[1..])
      case None => None
      case Some(i) => Some(i + 1)
  }

  /** The three parts a caption block is built from. */
  datatype BlockParts = BlockParts(caption: string, hashtags: seq<string>, cta: string)

  /** Reads a caption block back into its parts: the caption runs to the first
      blank line, the hashtag line to the next line break, which must open a
      second blank line, and the call-to-action is everything after it. */
  function ParseBlock(block: string): Option<BlockParts> {
    match FindBlankLine(block)
    case None => None
    case Some(i) => ParseAfterCaption(block[..i], block[i + 2..])
  }

  /** The second half of ParseBlock: `rest` is what follows the first blank line. */
  function ParseAfterCaption(caption: string, rest: string): Option<BlockParts> {
    match FindNewline(rest)
    case None => None
    case Some(j) =>
      if j + 1 < |rest| && rest[j + 1] == '\n'
      then Some(BlockParts(caption, Split(rest[..j]), rest[j + 2..]))
      else None
  }

  /** A caption with no blank line and no final line break, followed by a
      blank line: that blank line is the first. */
  lemma FirstBlankLineAfter(caption: string, tail: string)
    requires FindBlankLine(caption) == None
    requires caption == [] || caption[|caption| - 1] != '\n'
    requires |tail| >= 2 && tail[0] == '\n' && tail[1] == '\n'
    ensures FindBlankLine(caption + tail) == Some(|caption|)
  {
    var s := caption + tail;
    var c := |caption|;
    assert s[c] == '\n' && s[c + 1] == '\n';
    forall i | 0 <= i < c ensures !(s[i] == '\n' && s[i + 1] == '\n') {
      assert s[i] == caption[i];
      if i + 1 < c {
        assert s[i + 1] == caption[i + 1];
      }
    }
  }

  /** A line without line breaks, followed by one: that break is the first. */
  lemma FirstNewlineAfter(line: string, tail: string)
    requires forall k :: 0 <= k < |line| ==> line[k] != '\n'
    requires tail != [] && tail[0] == '\n'
    ensures FindNewline(line + tail) == Some(|line|)
  {
    var s := line + tail;
    assert s[|line|] == '\n';
    forall i | 0 <= i < |line| ensures s[i] != '\n' {
      assert s[i] == line[i];
    }
  }

  /** Tokens joined by single spaces make one line. */
  lemma JoinedTokensOneLine(hashtags: seq<string>)
    requires forall w :: w in hashtags ==> IsToken(w)
    ensures forall k :: 0 <= k < |Join(hashtags, " ")| ==> Join(hashtags, " ")[k] != '\n'
  {
    forall i | 0 <= i < |hashtags| ensures NoSpace(hashtags[i]) {
      assert hashtags[i] in hashtags;
    }
    JoinNoSpace(hashtags, " ");
    assert IsSpace('\n');
  }

  /** Cutting `a + (b + c)` at the two ends of `b`. */
  lemma CutAround(a: string, b: string, c: string)
    ensures (a + (b + c))[..|a|] == a
    ensures (a + (b + c))[|a| + |b|..] == c
  {
  }

  /** Reading back a block laid out from a caption, a hashtag line and a
      call-to-action. */
  lemma ParseLaidOut(caption: string, line: string, cta: string)
    requires FindBlankLine(caption) == None
    requires caption == [] || caption[|caption| - 1] != '\n'
    requires forall k :: 0 <= k < |line| ==> line[k] != '\n'
    ensures ParseBlock(caption + ("\n\n" + (line + ("\n\n" + cta))))
            == Some(BlockParts(caption, Split(line), cta))
  {
    var rest := line + ("\n\n" + cta);
    assert ParseBlock(caption + ("\n\n" + rest)) == ParseAfterCaption(caption, rest) by {
      FirstBlankLineAfter(caption, "\n\n" + rest);
      CutAround(caption, "\n\n", rest);
    }
    ParseHashtagLine(caption, line, cta);
  }

  lemma ParseHashtagLine(caption: string, line: string, cta: string)
    requires forall k :: 0 <= k < |line| ==> line[k] != '\n'
    ensures ParseAfterCaption(caption, line + ("\n\n" + cta)) == Some(BlockParts(caption, Split(line), cta))
  {
    var rest := line + ("\n\n" + cta);
    FirstNewlineAfter(line, "\n\n" + cta);
    assert rest[|line| + 1] == '\n';
    CutAround(line, "\n\n", cta);
  }

  lemma Regroup(a: string, b: string, c: string, d: string, e: string)
    ensures a + b + c + d + e == a + (b + (c + (d + e)))
  {
  }

  /** A caption block can be read back into the caption, hashtags and
      call-to-action it was built from, whenever the caption has no blank line
      of its own and does not end in a line break (a stripped caption never
      does) and the hashtags are tokens as `split()` produces them. */
  lemma BuildThenParse(caption: string, hashtags: seq<string>, cta: string)
    requires FindBlankLine(caption) == None
    requires caption == [] || caption[|caption| - 1] != '\n'
    requires forall w :: w in hashtags ==> IsToken(w)
    ensures ParseBlock(BuildCaptionBlock(caption, hashtags, cta)) == Some(BlockParts(caption, hashtags, cta))
  {
    var line := Join(hashtags, " ");
    Regroup(caption, "\n\n", line, "\n\n", cta);
    JoinedTokensOneLine(hashtags);
    ParseLaidOut(caption, line, cta);
    SplitJoin(hashtags);
  }

  /** The block the row assembly builds from three raw field texts reads back
      as the stripped caption, the leading tokens of the hashtags up to the cap,
      and the stripped call-to-action. */
  lemma StrippedBlockReadsBack(caption: string, hashtags: string, cta: string, cap: int)
    requires FindBlankLine(Strip(caption)) == None
    ensures ParseBlock(BuildCaptionBlock(Strip(caption), TruncateHashtags(Strip(hashtags), cap), Strip(cta)))
            == Some(BlockParts(Strip(caption), TruncateHashtags(Strip(hashtags), cap), Strip(cta)))
  {
    var c := Strip(caption);
    assert c == [] || c[|c| - 1] != '\n' by {
      assert IsSpace('\n');
    }
    TruncateHashtagsSpec(Strip(hashtags), cap);
    BuildThenParse(c, TruncateHashtags(Strip(hashtags), cap), Strip(cta));
  }

  /** A repeated hashtag is kept as often as it occurs: nothing removes
      duplicates. */
  lemma KeepsDuplicateTags()
    ensures TruncateHashtags("#a #a", 5) == ["#a", "#a"]
  {
    SplitJoin(["#a", "#a"]);
    assert Join(["#a", "#a"], " ") == "#a #a";
    SplitStrip("#a #a");
  }

  /** Even with nothing in it, a block keeps its two blank-line separators. */
  lemma EmptyBlock()
    ensures BuildCaptionBlock("", [], "") == "\n\n\n\n"
  {
  }
}
