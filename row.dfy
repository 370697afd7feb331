/** Turning the decoded model reply into the row of six caption blocks that is
    appended to the spreadsheet, one column per platform in a fixed order. */
module Row {
  import opened PyStr
  import opened Captions

  /** A decoded JSON value, as far as the row assembly tells values apart:
      a string, an object, or anything else (number, boolean, null, array). */
  datatype Json = JString(text: string) | JObject(members: map<string, Json>) | JOther

  /** Why no row was produced: a platform's value is not an object (so it has
      no `.get`), or one of its fields is present but not a string (so it has
      no `.strip`). */
  datatype Error = NotAnObject(platform: string) | NotAString(platform: string, field: string)

  datatype Result<T> = Ok(value: T) | Err(error: Error)

  /** The spreadsheet's column order. */
  const PlatformsOrder: seq<string> :=
    ["tiktok", "instagram", "facebook", "twitter", "snapchat", "youtube"]

  /** `entry.get(field, "").strip()` on a platform's object. */
  function StrippedField(platform: string, members: map<string, Json>, field: string): (r: Result<string>)
    ensures field !in members ==> r == Ok("")
    ensures r.Err? <==> field in members && !members[field].JString?
    ensures r.Err? ==> r.error == NotAString(platform, field)
    ensures r.Ok? ==> Strip(r.value) == r.value
    ensures field in members && members[field].JString? ==> r == Ok(Strip(members[field].text))
  {
    if field !in members then Ok("")
    else match members[field]
      case JString(t) => StripIdempotent(t); Ok(Strip(t))
      case _ => Err(NotAString(platform, field))
  }

  /** The block a platform named in the reply contributes: the stripped
      caption, the stripped hashtags cut to the platform's cap, and the
      stripped call-to-action, laid out as a caption block. Fields are read in
      the order caption, hashtags, cta, and the first one that is not a string
      is the error. */
  function EntryBlock(platform: string, entry: Json): (r: Result<string>)
    ensures r.Ok? ==> |r.value| >= 4
    ensures r.Err? ==> r.error.platform == platform
  {
    if !entry.JObject? then Err(NotAnObject(platform))
    else
      var caption := StrippedField(platform, entry.members, "caption");
      var hashtags := StrippedField(platform, entry.members, "hashtags");
      var cta := StrippedField(platform, entry.members, "cta");
      if caption.Err? then Err(caption.error)
      else if hashtags.Err? then Err(hashtags.error)
      else if cta.Err? then Err(cta.error)
      else Ok(BuildCaptionBlock(caption.value, TruncateHashtags(hashtags.value, HashtagCap(platform)), cta.value))
  }

  /** The column a platform gets: empty when the reply does not name it,
      otherwise the block of its entry, which is never empty. */
  function Column(data: map<string, Json>, platform: string): (r: Result<string>)
    ensures platform !in data ==> r == Ok("")
    ensures platform in data && r.Ok? ==> r.value != ""
    ensures r.Err? ==> platform in data && r.error.platform == platform
  {
    if platform !in data then Ok("") else EntryBlock(platform, data[platform])
  }

  /** The results of a left-to-right walk gathered into one: the values in
      order if every step succeeded, otherwise the first step's error. */
  function Collect(rs: seq<Result<string>>): (r: Result<seq<string>>)
    ensures r.Ok? ==> |r.value| == |rs|
  {
    if rs == [] then Ok([])
    else
      match Collect(rs[..|rs| - 1])
      case Err(e) => Err(e)
      case Ok(done) =>
        match rs[|rs| - 1]
        case Err(e) => Err(e)
        case Ok(v) => Ok(done + [v])
  }

  /** One more step of the walk: the first `i + 1` steps gathered, from the
      first `i` and step `i`. */
  lemma CollectStep(rs: seq<Result<string>>, i: nat)
    requires i < |rs|
    ensures Collect(rs[..i + 1]) == match Collect(rs[..i])
                                    case Err(e) => Err(e)
                                    case Ok(done) => (match rs[i] case Err(e) => Err(e) case Ok(v) => Ok(done + [v]))
  {
    assert rs[..i + 1][..i] == rs[..i];
  }

  /** Once a prefix of the walk has failed, the whole walk fails the same way. */
  lemma {:induction false} ErrorPersists(rs: seq<Result<string>>, k: nat)
    requires k <= |rs| && Collect(rs[..k]).Err?
    ensures Collect(rs) == Collect(rs[..k])
    decreases |rs|
  {
    if k < |rs| {
      var init := rs[..|rs| - 1];
      assert init[..k] == rs[..k];
      ErrorPersists(init, k);
    } else {
      assert rs[..k] == rs;
    }
  }

  /** Step `i` of a successful walk gave value `i`. */
  lemma {:induction false} CollectValues(rs: seq<Result<string>>)
    requires Collect(rs).Ok?
    ensures forall i :: 0 <= i < |rs| ==> rs[i] == Ok(Collect(rs).value[i])
    decreases |rs|
  {
    if rs != [] {
      var init := rs[..|rs| - 1];
      CollectValues(init);
      forall i | 0 <= i < |rs| ensures rs[i] == Ok(Collect(rs).value[i]) {
        if i < |init| {
          assert rs[i] == init[i];
        }
      }
    }
  }

  /** The walk succeeds exactly when every step does. */
  lemma {:induction false} CollectOkIff(rs: seq<Result<string>>)
    ensures Collect(rs).Ok? <==> forall i :: 0 <= i < |rs| ==> rs[i].Ok?
    decreases |rs|
  {
    if rs != [] {
      var init := rs[..|rs| - 1];
      CollectOkIff(init);
      assert forall i :: 0 <= i < |init| ==> rs[i] == init[i];
    }
  }

  /** A failed walk reports the error of its first failing step. */
  lemma {:induction false} CollectErrIsFirst(rs: seq<Result<string>>)
    requires Collect(rs).Err?
    ensures exists i :: 0 <= i < |rs| && rs[i] == Err(Collect(rs).error)
                        && forall j :: 0 <= j < i ==> rs[j].Ok?
    decreases |rs|
  {
    var init := rs[..|rs| - 1];
    assert forall i :: 0 <= i < |init| ==> rs[i] == init[i];
    if Collect(init).Err? {
      CollectErrIsFirst(init);
    } else {
      CollectOkIff(init);
    }
  }

  /** The column of every platform in `ps`, in order. */
  function Columns(data: map<string, Json>, ps: seq<string>): (cs: seq<Result<string>>)
    ensures |cs| == |ps|
  {
    seq(|ps|, i requires 0 <= i < |ps| => Column(data, ps[i]))
  }

  /** The row for the platforms `ps`: their columns walked left to right. */
  function RowOf(data: map<string, Json>, ps: seq<string>): (r: Result<seq<string>>)
    ensures r.Ok? ==> |r.value| == |ps|
  {
    Collect(Columns(data, ps))
  }

  /** A row has one entry per platform, and entry `i` is platform `ps[i]`'s
      column: its block when the reply names it, empty otherwise. */
  lemma RowColumns(data: map<string, Json>, ps: seq<string>)
    requires RowOf(data, ps).Ok?
    ensures |RowOf(data, ps).value| == |ps|
    ensures forall i :: 0 <= i < |ps| ==> Column(data, ps[i]) == Ok(RowOf(data, ps).value[i])
  {
    var cs := Columns(data, ps);
    CollectValues(cs);
    assert forall i :: 0 <= i < |ps| ==> cs[i] == Column(data, ps[i]);
  }

  /** A row is produced exactly when the entry of every platform named in
      the reply is well formed. */
  lemma RowOkIff(data: map<string, Json>, ps: seq<string>)
    ensures RowOf(data, ps).Ok? <==> forall i :: 0 <= i < |ps| ==> Column(data, ps[i]).Ok?
  {
    var cs := Columns(data, ps);
    CollectOkIff(cs);
    assert forall i :: 0 <= i < |ps| ==> cs[i] == Column(data, ps[i]);
  }

  /** A failed row reports the error of the first malformed platform in order. */
  lemma RowErrIsFirst(data: map<string, Json>, ps: seq<string>)
    requires RowOf(data, ps).Err?
    ensures exists i :: 0 <= i < |ps| && Column(data, ps[i]) == Err(RowOf(data, ps).error)
                        && forall j :: 0 <= j < i ==> Column(data, ps[j]).Ok?
  {
    var cs := Columns(data, ps);
    CollectErrIsFirst(cs);
    assert forall i :: 0 <= i < |ps| ==> cs[i] == Column(data, ps[i]);
  }

  /** Only the platforms' own entries matter: two replies that agree on them
      give the same row, whatever other keys either holds. */
  lemma RowIgnoresOtherKeys(d1: map<string, Json>, d2: map<string, Json>, ps: seq<string>)
    requires forall p :: p in ps ==> (p in d1 <==> p in d2)
    requires forall p :: p in ps && p in d1 ==> d1[p] == d2[p]
    ensures RowOf(d1, ps) == RowOf(d2, ps)
  {
    forall i | 0 <= i < |ps| ensures Columns(d1, ps)[i] == Columns(d2, ps)[i] {
      assert ps[i] in ps;
    }
    assert Columns(d1, ps) == Columns(d2, ps);
  }

  /** An extra key in the reply, one that is not a platform, is ignored. */
  lemma ExtraKeyIgnored(data: map<string, Json>, key: string, value: Json)
    requires key !in PlatformsOrder
    ensures RowOf(data[key := value], PlatformsOrder) == RowOf(data, PlatformsOrder)
  {
    RowIgnoresOtherKeys(data[key := value], data, PlatformsOrder);
  }

  /** A reply that names no platform gives six empty columns. */
  lemma EmptyReplyRow()
    ensures RowOf(map[], PlatformsOrder) == Ok(["", "", "", "", "", ""])
  {
    RowOkIff(map[], PlatformsOrder);
    RowColumns(map[], PlatformsOrder);
    var r := RowOf(map[], PlatformsOrder);
    assert r.value == ["", "", "", "", "", ""];
  }

  /** Which entries raise, and with which error: an entry that is not an
      object, otherwise the first of caption, hashtags and cta present with a
      value that is not a string. */
  lemma EntryBlockError(platform: string, entry: Json)
    ensures EntryBlock(platform, entry).Err? <==> !(entry.JObject? && WellFormedEntry(entry.members))
    ensures !entry.JObject? ==> EntryBlock(platform, entry) == Err(NotAnObject(platform))
    ensures entry.JObject? && !FieldReadable(entry.members, "caption")
            ==> EntryBlock(platform, entry) == Err(NotAString(platform, "caption"))
    ensures entry.JObject? && FieldReadable(entry.members, "caption") && !FieldReadable(entry.members, "hashtags")
            ==> EntryBlock(platform, entry) == Err(NotAString(platform, "hashtags"))
    ensures entry.JObject? && FieldReadable(entry.members, "caption") && FieldReadable(entry.members, "hashtags")
            && !FieldReadable(entry.members, "cta")
            ==> EntryBlock(platform, entry) == Err(NotAString(platform, "cta"))
  {
  }

  /** A platform the reply names with no fields at all still gets a block:
      the two blank-line separators and nothing else. */
  lemma EmptyEntryColumn(data: map<string, Json>, platform: string)
    requires platform in data && data[platform] == JObject(map[])
    ensures Column(data, platform) == Ok("\n\n\n\n")
  {
    WellFormedBlock(platform, map[]);
    assert TruncateHashtags("", HashtagCap(platform)) == [];
    EmptyBlock();
  }

  /** The text of a field as the row assembly reads it: missing is empty. */
  function FieldText(members: map<string, Json>, field: string): string {
    if field in members && members[field].JString? then members[field].text else ""
  }

  /** A field that is absent or a string: reading it does not raise. */
  predicate FieldReadable(members: map<string, Json>, field: string) {
    field in members ==> members[field].JString?
  }

  /** A fields object whose caption, hashtags and cta are each a string or absent. */
  predicate WellFormedEntry(members: map<string, Json>) {
    FieldReadable(members, "caption") && FieldReadable(members, "hashtags") && FieldReadable(members, "cta")
  }

  /** What a present platform's column holds: reading the block back gives the
      stripped caption, at most the platform's cap of hashtags, which are the
      leading whitespace-separated tokens of the hashtags field, and the
      stripped call-to-action (a caption with a blank line of its own cannot
      be told apart from the separator, hence that one condition). */
  lemma ColumnReadsBack(data: map<string, Json>, platform: string)
    requires platform in data && data[platform].JObject?
    requires WellFormedEntry(data[platform].members)
    requires FindBlankLine(Strip(FieldText(data[platform].members, "caption"))) == None
    ensures Column(data, platform).Ok?
    ensures var members := data[platform].members;
            var tags := TruncateHashtags(Strip(FieldText(members, "hashtags")), HashtagCap(platform));
            && ParseBlock(Column(data, platform).value)
               == Some(BlockParts(Strip(FieldText(members, "caption")), tags,
                                  Strip(FieldText(members, "cta"))))
            && |tags| <= HashtagCap(platform)
            && tags <= Split(FieldText(members, "hashtags"))
  {
    var members := data[platform].members;
    WellFormedBlock(platform, members);
    StrippedBlockReadsBack(FieldText(members, "caption"), FieldText(members, "hashtags"),
                           FieldText(members, "cta"), HashtagCap(platform));
    TruncateHashtagsSpec(Strip(FieldText(members, "hashtags")), HashtagCap(platform));
    SplitStrip(FieldText(members, "hashtags"));
  }

  /** The block of a well-formed entry, spelled out field by field. */
  lemma WellFormedBlock(platform: string, members: map<string, Json>)
    requires WellFormedEntry(members)
    ensures EntryBlock(platform, JObject(members))
            == Ok(BuildCaptionBlock(Strip(FieldText(members, "caption")),
                                    TruncateHashtags(Strip(FieldText(members, "hashtags")), HashtagCap(platform)),
                                    Strip(FieldText(members, "cta"))))
  {
    ReadableField(platform, members, "caption");
    ReadableField(platform, members, "hashtags");
    ReadableField(platform, members, "cta");
  }

  /** A readable field reads as its stripped text. */
  lemma ReadableField(platform: string, members: map<string, Json>, field: string)
    requires FieldReadable(members, field)
    ensures StrippedField(platform, members, field) == Ok(Strip(FieldText(members, field)))
  {
  }

  /** Lines 86-100 of the button handler: walks the platforms in column order
      and appends each platform's block, or an empty string for a platform the
      reply leaves out. A malformed entry raises, and no row is produced. */
  method AssembleRow(data: map<string, Json>) returns (r: Result<seq<string>>)
    ensures r == RowOf(data, PlatformsOrder)
    ensures r.Ok? ==> |r.value| == |PlatformsOrder|
    ensures r.Ok? ==> forall i :: 0 <= i < |PlatformsOrder| ==>
                        (r.value[i] == "" <==> PlatformsOrder[i] !in data)
  {
    ghost var cols := Columns(data, PlatformsOrder);
    var row: seq<string> := [];
    for i := 0 to |PlatformsOrder|
      invariant Collect(cols[..i]) == Ok(row)
    {
      var platform := PlatformsOrder[i];
      CollectStep(cols, i);
      if platform in data {
        var block := PlatformBlock(platform, data[platform]);
        if block.Err? {
          ErrorPersists(cols, i + 1);
          return Err(block.error);
        }
        row := row + [block.value];
      } else {
        row := row + [""];
      }
    }
    assert cols[..|PlatformsOrder|] == cols;
    r := Ok(row);
    RowColumns(data, PlatformsOrder);
  }

  /** Lines 90-97, the body of the loop for a platform the reply names: reads
      the three fields in order, cuts the hashtags to the platform's cap and
      lays out the block. */
  method PlatformBlock(platform: string, entry: Json) returns (r: Result<string>)
    ensures r == EntryBlock(platform, entry)
  {
    if !entry.JObject? {
      return Err(NotAnObject(platform));
    }
    var caption := StrippedField(platform, entry.members, "caption");
    if caption.Err? {
      return Err(caption.error);
    }
    var hashtags := StrippedField(platform, entry.members, "hashtags");
    if hashtags.Err? {
      return Err(hashtags.error);
    }
    var cta := StrippedField(platform, entry.members, "cta");
    if cta.Err? {
      return Err(cta.error);
    }
    var tagsList := TruncateHashtags(hashtags.value, HashtagCap(platform));
    var block := BuildCaptionBlock(caption.value, tagsList, cta.value);
    return Ok(block);
  }
}
