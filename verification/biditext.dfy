/**
 * The biditext script: the tag filter `filter_log1_to_log9` and the
 * `weechat_print` modifier callback `biditext_cb`, which prints every
 * incoming line twice, once as received and once reordered by fribidi.
 */
module Biditext {
  import opened Strings
  import opened Fribidi
  import opened Weechat

  datatype Option<T> = None | Some(value: T)

  /** Separator between the tags of a tags string. */
  const TagSep: char := ','
  /** Separator between the fields `plugin;buffer;tags` of the modifier data. */
  const FieldSep: char := ';'
  /** Tag of the printed line that carries the text as received. */
  const NoShowNonBidied: string := "no_show_non_bidied"
  /** Tag of the printed line that carries the reordered text. */
  const NoLog: string := "no_log"

  // ---------------------------------------------------------------------
  // Log tags and the generator of them
  // ---------------------------------------------------------------------

  /** The i-th value of the generator: `'log' + str(i)` for `i` in `range(10)`. */
  function LogTag(i: nat): string
    requires i < 10
  {
    "log" + [('0' as int + i) as char]
  }

  /** The level N of a tag `logN` with N one decimal digit; None for every other tag. */
  function LogLevel(tag: string): (level: Option<nat>)
    ensures level.Some? ==> level.value < 10 && tag == LogTag(level.value)
    ensures forall i :: 0 <= i < 10 && tag == LogTag(i) ==> level == Some(i)
  {
    if |tag| == 4 && tag[0] == 'l' && tag[1] == 'o' && tag[2] == 'g' && '0' <= tag[3] <= '9' then
      assert tag == "log" + [tag[3]];
      Some(tag[3] as int - '0' as int)
    else
      None
  }

  /** The tag is one of the ten values the generator can yield. */
  predicate IsLogTag(tag: string)
  {
    LogLevel(tag).Some?
  }

  /**
   * `tag in gen` for a generator whose next value is `LogTag(cursor)`
   * (exhausted when `cursor` is 10): whether `tag` is among the values still
   * to come, and the cursor afterwards. A match leaves the generator just
   * past the matched value; a miss exhausts it.
   */
  function Probe(cursor: nat, tag: string): (res: (bool, nat))
    requires cursor <= 10
    ensures res.1 <= 10
    ensures res.0 ==> cursor < res.1 && tag == LogTag(res.1 - 1)
    ensures !res.0 ==> res.1 == 10 && forall i :: cursor <= i < 10 ==> tag != LogTag(i)
  {
    match LogLevel(tag)
    case Some(level) => if cursor <= level then (true, level + 1) else (false, 10)
    case None => (false, 10)
  }

  /**
   * The generator `('log' + str(i) for i in range(10))`, built once per
   * filter call and shared by every membership test of that call.
   */
  class LogTagGenerator {
    /** Index of the value yielded next; 10 once the generator is exhausted. */
    var next: nat

    ghost predicate Valid()
      reads this
    {
      next <= 10
    }

    constructor ()
      ensures Valid() && next == 0
    {
      next := 0;
    }

    /**
     * `tag in self`: draws values until one equals `tag` or none is left,
     * as Python's `in` does on an iterator.
     */
    method Contains(tag: string) returns (found: bool)
      requires Valid()
      modifies this
      ensures Valid()
      ensures (found, next) == Probe(old(next), tag)
    {
      while next < 10
        invariant old(next) <= next <= 10
        invariant forall i :: old(next) <= i < next ==> tag != LogTag(i)
        decreases 10 - next
      {
        var value := LogTag(next);
        next := next + 1;
        if value == tag {
          found := true;
          return;
        }
      }
      found := false;
    }
  }

  // ---------------------------------------------------------------------
  // filter_log1_to_log9
  // ---------------------------------------------------------------------

  /**
   * The tags the comprehension keeps, in order, when the shared generator
   * starts at `cursor`: a tag is dropped exactly when the `in` test finds
   * it, and every test moves the generator on for the tests after it.
   * Nothing is ever added, and once the generator is exhausted every tag is
   * kept; `KeptIsSuffix` and `KeptDropsLongestLogRun` say which tags go.
   */
  function Kept(tags: seq<string>, cursor: nat): (kept: seq<string>)
    requires cursor <= 10
    ensures |kept| <= |tags|
    ensures cursor == 10 ==> kept == tags
  {
    if tags == [] then []
    else
      var (member, next) := Probe(cursor, tags[0]);
      if member then Kept(tags[1..], next) else [tags[0]] + Kept(tags[1..], next)
  }

  /**
   * What `filter_log1_to_log9(tagsStr)` returns. It is never longer than
   * its argument; `FilterIsSuffix` shows it is even a suffix of it.
   */
  function FilteredTags(tagsStr: string): (filtered: string)
    ensures |filtered| <= |tagsStr|
  {
    var tags := Split(tagsStr, TagSep);
    KeptIsSuffix(tags, 0);
    JoinSplit(tagsStr, TagSep);
    JoinSuffix(tags, |tags| - |Kept(tags, 0)|, TagSep);
    Join(Kept(tags, 0), TagSep)
  }

  /**
   * `run` is made of log tags whose levels are at least `lowest` and
   * strictly increase from left to right.
   */
  ghost predicate IsLogRun(run: seq<string>, lowest: nat)
  {
    && (forall i :: 0 <= i < |run| ==> IsLogTag(run[i]) && lowest <= LogLevel(run[i]).value)
    && (forall i, j :: 0 <= i < j < |run| ==> LogLevel(run[i]).value < LogLevel(run[j]).value)
  }

  /** `tags[..k]` is the longest prefix of `tags` that is a log run above `lowest`. */
  ghost predicate LongestLogRun(tags: seq<string>, k: nat, lowest: nat)
  {
    && k <= |tags|
    && IsLogRun(tags[..k], lowest)
    && forall j :: k < j <= |tags| ==> !IsLogRun(tags[..j], lowest)
  }

  /** The front tag and the rest of a run extended at the front. */
  lemma LogRunConsElim(t: string, run: seq<string>, lowest: nat)
    requires IsLogRun([t] + run, lowest)
    ensures IsLogTag(t) && lowest <= LogLevel(t).value && IsLogRun(run, LogLevel(t).value + 1)
  {
    var s := [t] + run;
    assert s[0] == t;
    forall i | 0 <= i < |run| ensures IsLogTag(run[i]) && LogLevel(t).value + 1 <= LogLevel(run[i]).value {
      assert s[i + 1] == run[i];
    }
    forall i, j | 0 <= i < j < |run| ensures LogLevel(run[i]).value < LogLevel(run[j]).value {
      assert s[i + 1] == run[i] && s[j + 1] == run[j];
    }
  }

  /** A run extended at the front by a tag below all of it. */
  lemma LogRunConsIntro(t: string, run: seq<string>, lowest: nat)
    requires IsLogTag(t) && lowest <= LogLevel(t).value && IsLogRun(run, LogLevel(t).value + 1)
    ensures IsLogRun([t] + run, lowest)
  {
    var s := [t] + run;
    forall i | 0 <= i < |s| ensures IsLogTag(s[i]) && lowest <= LogLevel(s[i]).value {
      if i > 0 { assert s[i] == run[i - 1]; }
    }
    forall i, j | 0 <= i < j < |s| ensures LogLevel(s[i]).value < LogLevel(s[j]).value {
      assert s[j] == run[j - 1];
      if i > 0 { assert s[i] == run[i - 1]; }
    }
  }

  /** A run extended at the front by one tag. */
  lemma LogRunCons(t: string, run: seq<string>, lowest: nat)
    ensures IsLogRun([t] + run, lowest) <==>
      IsLogTag(t) && lowest <= LogLevel(t).value && IsLogRun(run, LogLevel(t).value + 1)
  {
    if IsLogRun([t] + run, lowest) {
      LogRunConsElim(t, run, lowest);
    }
    if IsLogTag(t) && lowest <= LogLevel(t).value && IsLogRun(run, LogLevel(t).value + 1) {
      LogRunConsIntro(t, run, lowest);
    }
  }

  /** A tag the generator finds extends the longest run after it by one. */
  lemma LongestLogRunCons(t: string, rest: seq<string>, cursor: nat, k: nat)
    requires cursor <= 10 && Probe(cursor, t).0
    requires LongestLogRun(rest, k, Probe(cursor, t).1)
    ensures LongestLogRun([t] + rest, k + 1, cursor)
  {
    var tags := [t] + rest;
    assert LogLevel(t) == Some(Probe(cursor, t).1 - 1);
    assert tags[..k + 1] == [t] + rest[..k];
    LogRunCons(t, rest[..k], cursor);
    forall j | k + 1 < j <= |tags| ensures !IsLogRun(tags[..j], cursor) {
      assert tags[..j] == [t] + rest[..j - 1];
      LogRunCons(t, rest[..j - 1], cursor);
    }
  }

  /** A tag the generator misses ends the run before it starts. */
  lemma LongestLogRunEmpty(t: string, rest: seq<string>, cursor: nat)
    requires cursor <= 10 && !Probe(cursor, t).0
    ensures LongestLogRun([t] + rest, 0, cursor)
  {
    var tags := [t] + rest;
    assert !(IsLogTag(t) && cursor <= LogLevel(t).value);
    assert tags[..0] == [];
    forall j | 0 < j <= |tags| ensures !IsLogRun(tags[..j], cursor) {
      assert tags[..j] == [t] + rest[..j - 1];
      LogRunCons(t, rest[..j - 1], cursor);
    }
  }

  /**
   * The tags dropped from a starting cursor are exactly the longest leading
   * run of log tags with levels at least the cursor and strictly
   * increasing; everything from the first break in that run on is kept.
   */
  lemma {:induction false} KeptDropsLongestLogRun(tags: seq<string>, cursor: nat)
    requires cursor <= 10
    ensures exists k: nat :: LongestLogRun(tags, k, cursor) && Kept(tags, cursor) == tags[k..]
  {
    if tags == [] {
      assert tags[..0] == [] && tags[0..] == tags;
      assert LongestLogRun(tags, 0, cursor);
    } else {
      var t, rest := tags[0], tags[1..];
      assert tags == [t] + rest;
      var (member, next) := Probe(cursor, t);
      if member {
        KeptDropsLongestLogRun(rest, next);
        var k: nat :| LongestLogRun(rest, k, next) && Kept(rest, next) == rest[k..];
        LongestLogRunCons(t, rest, cursor, k);
        assert tags[k + 1..] == rest[k..];
      } else {
        LongestLogRunEmpty(t, rest, cursor);
        assert tags[0..] == tags;
      }
    }
  }

  /** Only leading tags are ever dropped: the kept tags are a suffix of the tags. */
  lemma KeptIsSuffix(tags: seq<string>, cursor: nat)
    requires cursor <= 10
    ensures var kept := Kept(tags, cursor); kept == tags[|tags| - |kept|..]
  {
  }

  /**
   * A tag that is not one of `log0`..`log9` is never dropped: it keeps its
   * place relative to the end of the list.
   */
  lemma KeptKeepsOtherTags(tags: seq<string>, i: nat)
    requires i < |tags| && !IsLogTag(tags[i])
    ensures var kept := Kept(tags, 0);
      |tags| - |kept| <= i && kept[i - (|tags| - |kept|)] == tags[i]
  {
    KeptDropsLongestLogRun(tags, 0);
    var k: nat :| LongestLogRun(tags, k, 0) && Kept(tags, 0) == tags[k..];
    forall m | 0 <= m < k ensures IsLogTag(tags[m]) {
      assert tags[..k][m] == tags[m];
    }
    assert tags[k..][i - k] == tags[i];
  }

  /**
   * One tag of the comprehension: if `kept` followed by what the rest keeps
   * from `tags[i..]` is `total`, the same holds one tag later, with the tag
   * kept exactly when the `in` test misses.
   */
  lemma KeptStep(tags: seq<string>, i: nat, cursor: nat, kept: seq<string>, total: seq<string>)
    requires i < |tags| && cursor <= 10
    requires kept + Kept(tags[i..], cursor) == total
    ensures var (member, next) := Probe(cursor, tags[i]);
      (if member then kept else kept + [tags[i]]) + Kept(tags[i + 1..], next) == total
  {
    assert tags[i..][0] == tags[i] && tags[i..][1..] == tags[i + 1..];
    var (member, next) := Probe(cursor, tags[i]);
    assert Kept(tags[i..], cursor) == (if member then [] else [tags[i]]) + Kept(tags[i + 1..], next);
    if !member {
      assert kept + ([tags[i]] + Kept(tags[i + 1..], next)) == kept + [tags[i]] + Kept(tags[i + 1..], next);
    }
  }

  /**
   * The filter drops exactly the longest leading run of log tags with
   * strictly increasing levels and joins the rest.
   */
  lemma FilterDropsLongestLogRun(tagsStr: string)
    ensures exists k: nat ::
      LongestLogRun(Split(tagsStr, TagSep), k, 0) && FilteredTags(tagsStr) == Join(Split(tagsStr, TagSep)[k..], TagSep)
  {
    var tags := Split(tagsStr, TagSep);
    KeptDropsLongestLogRun(tags, 0);
    var k: nat :| LongestLogRun(tags, k, 0) && Kept(tags, 0) == tags[k..];
    assert FilteredTags(tagsStr) == Join(Kept(tags, 0), TagSep);
    assert LongestLogRun(tags, k, 0) && FilteredTags(tagsStr) == Join(tags[k..], TagSep);
  }

  /**
   * `filter_log1_to_log9`: splits the tags string at commas, keeps each tag
   * that the shared generator does not find, and joins the kept tags with
   * commas.
   */
  method FilterLog1ToLog9(tagsStr: string) returns (noLogTags: string)
    ensures noLogTags == FilteredTags(tagsStr)
    ensures exists k: nat ::
      LongestLogRun(Split(tagsStr, TagSep), k, 0) && noLogTags == Join(Split(tagsStr, TagSep)[k..], TagSep)
  {
    var logTags := new LogTagGenerator();
    var tagList := Split(tagsStr, TagSep);
    var kept: seq<string> := [];
    var i := 0;
    assert kept + Kept(tagList[i..], logTags.next) == Kept(tagList, 0) by {
      assert tagList[0..] == tagList;
    }
    while i < |tagList|
      invariant i <= |tagList|
      invariant logTags.Valid()
      invariant kept + Kept(tagList[i..], logTags.next) == Kept(tagList, 0)
    {
      var tag := tagList[i];
      KeptStep(tagList, i, logTags.next, kept, Kept(tagList, 0));
      var member := logTags.Contains(tag);
      if !member {
        kept := kept + [tag];
      }
      i := i + 1;
    }
    assert kept == Kept(tagList, 0) by {
      assert tagList[i..] == [];
    }
    noLogTags := Join(kept, TagSep);
    FilterDropsLongestLogRun(tagsStr);
  }

  /**
   * The filter returns its argument unchanged exactly when the first tag is
   * not a log tag; in particular `""` maps to `""`.
   */
  lemma FilterIsIdentityIff(tagsStr: string)
    ensures FilteredTags(tagsStr) == tagsStr <==> !IsLogTag(Split(tagsStr, TagSep)[0])
  {
    var tags := Split(tagsStr, TagSep);
    JoinSplit(tagsStr, TagSep);
    KeptDropsLongestLogRun(tags, 0);
    var k: nat :| LongestLogRun(tags, k, 0) && Kept(tags, 0) == tags[k..];
    if !IsLogTag(tags[0]) {
      assert tags[0..] == tags;
    } else {
      assert tags[..1] == [tags[0]];
      assert IsLogRun(tags[..1], 0);
      assert k >= 1;
      if k < |tags| {
        JoinAt(tags, k, TagSep);
      } else {
        assert tags[k..] == [];
        assert |tags[0]| == 4;
      }
    }
  }

  /** Only leading tags are ever dropped, so the result is a suffix of the argument. */
  lemma FilterIsSuffix(tagsStr: string)
    ensures IsSuffix(FilteredTags(tagsStr), tagsStr)
  {
    var tags := Split(tagsStr, TagSep);
    KeptIsSuffix(tags, 0);
    JoinSplit(tagsStr, TagSep);
    JoinSuffix(tags, |tags| - |Kept(tags, 0)|, TagSep);
  }

  /** The filter applied to comma-joined tags that contain no comma themselves. */
  lemma FilterOfJoin(tags: seq<string>)
    requires |tags| >= 1
    requires forall i :: 0 <= i < |tags| ==> TagSep !in tags[i]
    ensures FilteredTags(Join(tags, TagSep)) == Join(Kept(tags, 0), TagSep)
  {
    SplitJoin(tags, TagSep);
  }

  /** A leading log tag is dropped. */
  lemma FilterDropsLeadingLogTag()
    ensures FilteredTags("log3,notify_message") == "notify_message"
  {
    LeadingLogTagJoined();
    FilterOfJoin(["log3", "notify_message"]);
    LeadingLogTagKept();
  }

  /** The tags string of `FilterDropsLeadingLogTag`, as a join. */
  lemma LeadingLogTagJoined()
    ensures "log3,notify_message" == Join(["log3", "notify_message"], TagSep)
  {
  }

  /** The tags `FilterDropsLeadingLogTag` keeps. */
  lemma LeadingLogTagKept()
    ensures Kept(["log3", "notify_message"], 0) == ["notify_message"]
  {
    assert Probe(0, "log3") == (true, 4);
  }

  /** A log tag after an ordinary tag is kept: the miss exhausted the generator. */
  lemma FilterKeepsLaterLogTag()
    ensures FilteredTags("notify_message,log3") == "notify_message,log3"
  {
    LaterLogTagJoined();
    FilterOfJoin(["notify_message", "log3"]);
    LaterLogTagKept();
  }

  /** The tags string of `FilterKeepsLaterLogTag`, as a join. */
  lemma LaterLogTagJoined()
    ensures "notify_message,log3" == Join(["notify_message", "log3"], TagSep)
  {
  }

  /** The tags `FilterKeepsLaterLogTag` keeps. */
  lemma LaterLogTagKept()
    ensures Kept(["notify_message", "log3"], 0) == ["notify_message", "log3"]
  {
    assert LogLevel("notify_message") == None;
    assert Probe(0, "notify_message") == (false, 10);
  }

  /**
   * A log tag whose level is below the one before it is kept: the generator
   * has already gone past it. Filtering the result again drops it, so the
   * filter is not idempotent.
   */
  lemma FilterStopsAtLowerLevel()
    ensures FilteredTags("log5,log3") == "log3"
    ensures FilteredTags(FilteredTags("log5,log3")) == ""
  {
    LowerLevelJoined();
    FilterOfJoin(["log5", "log3"]);
    FilterOfJoin(["log3"]);
    LowerLevelKept();
  }

  /** The tags strings of `FilterStopsAtLowerLevel`, as joins. */
  lemma LowerLevelJoined()
    ensures "log5,log3" == Join(["log5", "log3"], TagSep)
    ensures "log3" == Join(["log3"], TagSep)
  {
  }

  /** The tags `FilterStopsAtLowerLevel` keeps, on the first and on the second pass. */
  lemma LowerLevelKept()
    ensures Kept(["log5", "log3"], 0) == ["log3"]
    ensures Kept(["log3"], 0) == []
  {
    assert LogLevel("log3") == Some(3) && LogLevel("log5") == Some(5);
    assert Kept(["log3"], 6) == ["log3"];
  }

  /** `log0` is a log tag too, and the run ends at the first level that does not rise. */
  lemma FilterDropsLogZero()
    ensures FilteredTags("log0,log7,log2") == "log2"
  {
    LogZeroTagsJoined();
    FilterOfJoin(["log0", "log7", "log2"]);
    LogZeroKept();
  }

  /** The tags string of `FilterDropsLogZero`, as a join. */
  lemma LogZeroTagsJoined()
    ensures "log0,log7,log2" == Join(["log0", "log7", "log2"], TagSep)
  {
  }

  /** The tags `FilterDropsLogZero` keeps. */
  lemma LogZeroKept()
    ensures Kept(["log0", "log7", "log2"], 0) == ["log2"]
  {
    assert LogLevel("log0") == Some(0) && LogLevel("log7") == Some(7) && LogLevel("log2") == Some(2);
    assert Kept(["log2"], 8) == ["log2"];
    assert Kept(["log7", "log2"], 1) == ["log2"];
  }

  // ---------------------------------------------------------------------
  // biditext_cb
  // ---------------------------------------------------------------------

  /** How a callback invocation ends: the string it returns, or the `ValueError` it raises. */
  datatype CallbackResult = Returned(value: string) | ValueError(fieldCount: nat)

  /**
   * The two lines the callback prints for one incoming line, in order: the
   * text as received under the original tags, then the reordered text under
   * the filtered tags. The first line keeps every original tag, log tags
   * included, and ends with `no_show_non_bidied`; the second ends with
   * `no_log`, so the two tags strings always differ (already in their last
   * character).
   */
  function Emissions(buffer: BufferPointer, tags: string, line: string, ltrLine: string): (es: seq<Emission>)
    ensures |es| == 2
    ensures es[0].tags != es[1].tags
  {
    var first, second := tags + [TagSep] + NoShowNonBidied, FilteredTags(tags) + [TagSep] + NoLog;
    assert first[|first| - 1] == 'd' && second[|second| - 1] == 'g';
    [ Emission(buffer, 0, tags + [TagSep] + NoShowNonBidied, line),
      Emission(buffer, 0, FilteredTags(tags) + [TagSep] + NoLog, ltrLine) ]
  }

  /**
   * `biditext_cb(data, modifier, modifier_data, line)`: reorders the line,
   * unpacks `plugin;buffer;tags` (raising `ValueError` unless there are
   * exactly three fields), looks the buffer up, prints the line twice and
   * returns the empty string so that WeeChat prints nothing itself.
   */
  method BiditextCb(host: Host, log2vis: Log2Vis, data: string, modifier: string,
                    modifierData: string, line: string) returns (result: CallbackResult)
    modifies host
    ensures var fields := Split(modifierData, FieldSep);
      if |fields| == 3 then
        && result == Returned("")
        && host.lookups == old(host.lookups) + [(fields[0], fields[1])]
        && host.emitted == old(host.emitted) +
             Emissions(host.search(fields[0], fields[1]), fields[2], line, log2vis(line, LTR))
      else
        && result == ValueError(|fields|)
        && host.lookups == old(host.lookups)
        && host.emitted == old(host.emitted)
  {
    var ltrLine := log2vis(line, LTR);
    var fields := Split(modifierData, FieldSep);
    if |fields| != 3 {
      return ValueError(|fields|);
    }
    var pluginName, bufferName, tags := fields[0], fields[1], fields[2];
    var bufferPointer := host.BufferSearch(pluginName, bufferName);
    var noShowNonBidiedTags := tags + [TagSep] + NoShowNonBidied;
    var filtered := FilterLog1ToLog9(tags);
    var noLogTags := filtered + [TagSep] + NoLog;
    host.PrntDateTags(bufferPointer, 0, noShowNonBidiedTags, line);
    host.PrntDateTags(bufferPointer, 0, noLogTags, ltrLine);
    return Returned("");
  }

  /**
   * The second printed line carries the tags the filter kept (a single empty
   * tag when it kept none), followed by `no_log`.
   */
  lemma SecondEmissionKeepsFilteredTags(buffer: BufferPointer, tags: string, line: string, ltrLine: string)
    ensures var kept := Kept(Split(tags, TagSep), 0);
      Split(Emissions(buffer, tags, line, ltrLine)[1].tags, TagSep) ==
        (if kept == [] then [""] else kept) + [NoLog]
  {
    SplitAppendToken(FilteredTags(tags), NoLog, TagSep);
    SplitFilteredTags(tags);
  }

  /**
   * Splitting the filter's result at commas gives back the kept tags (a
   * single empty tag when none is kept).
   */
  lemma SplitFilteredTags(tags: string)
    ensures var kept := Kept(Split(tags, TagSep), 0);
      Split(FilteredTags(tags), TagSep) == if kept == [] then [""] else kept
  {
    var all := Split(tags, TagSep);
    var kept := Kept(all, 0);
    assert FilteredTags(tags) == Join(kept, TagSep);
    if kept == [] {
      assert Split(Join(kept, TagSep), TagSep) == [""];
    } else {
      KeptIsSuffix(all, 0);
      var k := |all| - |kept|;
      forall i | 0 <= i < |kept| ensures TagSep !in kept[i] {
        assert kept[i] == all[k + i];
      }
      SplitJoin(kept, TagSep);
    }
  }

  /**
   * The first printed line carries every incoming tag, log tags included,
   * followed by `no_show_non_bidied`.
   */
  lemma FirstEmissionKeepsAllTags(buffer: BufferPointer, tags: string, line: string, ltrLine: string)
    ensures Split(Emissions(buffer, tags, line, ltrLine)[0].tags, TagSep) == Split(tags, TagSep) + [NoShowNonBidied]
  {
    SplitAppendToken(tags, NoShowNonBidied, TagSep);
  }

  /**
   * The suppression tags are appended without looking at the incoming tags:
   * incoming tags that already hold `no_log` give a first printed line that
   * carries both `no_log` and `no_show_non_bidied`.
   */
  lemma FirstEmissionMayCarryBothSuppressionTags(buffer: BufferPointer, tags: string, line: string, ltrLine: string)
    requires NoLog in Split(tags, TagSep)
    ensures var first := Split(Emissions(buffer, tags, line, ltrLine)[0].tags, TagSep);
      NoLog in first && NoShowNonBidied in first
  {
    FirstEmissionKeepsAllTags(buffer, tags, line, ltrLine);
  }

  /** Incoming tags `no_log` alone give a first printed line tagged `no_log,no_show_non_bidied`. */
  lemma NoLogTagsEmissions(buffer: BufferPointer, line: string, ltrLine: string)
    ensures Split(Emissions(buffer, NoLog, line, ltrLine)[0].tags, TagSep) == [NoLog, NoShowNonBidied]
  {
    FirstEmissionKeepsAllTags(buffer, NoLog, line, ltrLine);
    SplitWithoutSeparator(NoLog, TagSep);
  }

  /** With no tags at all, each printed line carries only its own suppression tag, after an empty tag. */
  lemma EmptyTagsEmissions(buffer: BufferPointer, line: string, ltrLine: string)
    ensures Emissions(buffer, "", line, ltrLine)[0].tags == ",no_show_non_bidied"
    ensures Emissions(buffer, "", line, ltrLine)[1].tags == ",no_log"
  {
  }

  /** The filter maps empty tags to empty tags. */
  lemma EmptyTagsFiltered()
    ensures FilteredTags("") == ""
  {
  }

  /** A leading log tag leaves the tags of the second printed line. */
  lemma LogTagEmissions(buffer: BufferPointer, line: string, ltrLine: string)
    ensures Emissions(buffer, "log3,notify_message", line, ltrLine)[1].tags ==
      "notify_message" + [TagSep] + NoLog
  {
    FilterDropsLeadingLogTag();
  }
}
