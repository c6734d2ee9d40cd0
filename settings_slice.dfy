/** The settings slice: the per-day study-activity log and the map of
    embedded chats opened on quiz items and flashcards. */
module SettingsSlice {
  import opened Common
  import opened JsValue
  import opened StoreState

  /** The counts of the log entries, in order. */
  function Counts(xs: seq<ActivityEntry>): (r: seq<int>)
    reads xs
    ensures |r| == |xs| && forall i :: 0 <= i < |xs| ==> r[i] == xs[i].count
  {
    seq(|xs|, i reads xs requires 0 <= i < |xs| => xs[i].count)
  }

  /** The dates of the log entries, in order. */
  function Dates(xs: seq<ActivityEntry>): (r: seq<string>)
    reads xs
    ensures |r| == |xs| && forall i :: 0 <= i < |xs| ==> r[i] == xs[i].date
  {
    seq(|xs|, i reads xs requires 0 <= i < |xs| => xs[i].date)
  }

  /** No two positions of the log hold the same entry object. */
  predicate DistinctEntries(xs: seq<ActivityEntry>)
  {
    forall i, j :: 0 <= i < j < |xs| ==> xs[i] != xs[j]
  }

  /** No date occurs twice. */
  predicate NoRepeatedDates(ds: seq<string>)
  {
    forall i, j :: 0 <= i < j < |ds| ==> ds[i] != ds[j]
  }

  /** `findIndex(a => a.date === today)` */
  function FindDate(ds: seq<string>, today: string): (r: Option<nat>)
    ensures r.Some? ==> (r.value < |ds| && ds[r.value] == today
                         && forall j :: 0 <= j < r.value ==> ds[j] != today)
    ensures r.None? ==> today !in ds
  {
    if ds == [] then None
    else if ds[0] == today then Some(0)
    else
      var rest := FindDate(ds[1..], today);
      if rest.Some? then Some(rest.value + 1) else None
  }

  function Sum(xs: seq<int>): int
  {
    if xs == [] then 0 else xs[0] + Sum(xs[1..])
  }

  /** Adding to one count adds to the total. */
  lemma {:induction false} SumBump(xs: seq<int>, i: nat, c: int)
    requires i < |xs|
    ensures Sum(xs[i := xs[i] + c]) == Sum(xs) + c
  {
    if i > 0 {
      SumBump(xs[1..], i - 1, c);
      assert xs[i := xs[i] + c][1..] == xs[1..][i - 1 := xs[i] + c];
    }
  }

  /** Appending a count adds it to the total. */
  lemma {:induction false} SumAppend(xs: seq<int>, c: int)
    ensures Sum(xs + [c]) == Sum(xs) + c
  {
    if xs != [] {
      SumAppend(xs[1..], c);
      assert (xs + [c])[1..] == xs[1..] + [c];
    }
  }

  /** A new day keeps the dates of the log distinct. */
  lemma NewDayKeepsDatesDistinct(ds: seq<string>, today: string)
    requires NoRepeatedDates(ds) && today !in ds
    ensures NoRepeatedDates(ds + [today])
  {
    var es := ds + [today];
    forall i, j | 0 <= i < j < |es| ensures es[i] != es[j] {
      if j == |ds| {
        assert es[i] == ds[i] && es[i] in ds;
      } else {
        assert es[i] == ds[i] && es[j] == ds[j];
      }
    }
  }

  /** `activity[index].count += count` on a log of distinct entry objects:
      only that entry's count moves. */
  method BumpEntry(activity: seq<ActivityEntry>, index: nat, count: int)
    requires index < |activity| && DistinctEntries(activity)
    modifies activity[index]
    ensures Counts(activity) == old(Counts(activity))[index := old(activity[index].count) + count]
    ensures Dates(activity) == old(Dates(activity))
  {
    ghost var before := Counts(activity);
    ghost var dates := Dates(activity);
    var entry := activity[index];
    entry.count := entry.count + count;
    forall k | 0 <= k < |activity| && k != index ensures activity[k].count == before[k] && activity[k].date == dates[k] {
      assert activity[k] != entry;
    }
  }

  /** The counts after logging `count` on `today`: today's count grows, or a
      new count is appended for a new day. */
  function LoggedCounts(counts: seq<int>, dates: seq<string>, today: string, count: int): (r: seq<int>)
    requires |counts| == |dates|
    ensures today in dates ==> |r| == |counts|
    ensures today !in dates ==> r == counts + [count]
  {
    match FindDate(dates, today)
    case Some(i) => counts[i := counts[i] + count]
    case None => counts + [count]
  }

  /** The dates after logging on `today`: a new day is appended. */
  function LoggedDates(dates: seq<string>, today: string): (r: seq<string>)
    ensures today in r && |r| <= |dates| + 1
    ensures forall d :: d in r <==> d in dates || d == today
  {
    if today in dates then dates else dates + [today]
  }

  /** Logging adds exactly `count` to the total of the log. */
  lemma LoggedSum(counts: seq<int>, dates: seq<string>, today: string, count: int)
    requires |counts| == |dates|
    ensures Sum(LoggedCounts(counts, dates, today, count)) == Sum(counts) + count
  {
    match FindDate(dates, today)
    case Some(i) => SumBump(counts, i, count);
    case None => SumAppend(counts, count);
  }

  /** Logging keeps one entry per day, and only today's count moves. */
  lemma LoggedKeepsDays(counts: seq<int>, dates: seq<string>, today: string, count: int)
    requires |counts| == |dates| && NoRepeatedDates(dates)
    ensures NoRepeatedDates(LoggedDates(dates, today))
    ensures var r, ds := LoggedCounts(counts, dates, today, count), LoggedDates(dates, today);
      |r| == |ds| && forall k :: 0 <= k < |ds| ==> (r[k] == if ds[k] == today then
        (if today in dates then counts[k] + count else count) else counts[k])
  {
    if today !in dates {
      NewDayKeepsDatesDistinct(dates, today);
    }
  }

  /** `activity.push({ date: today, count })` with a new entry object. */
  method AppendEntry(activity: seq<ActivityEntry>, today: string, count: int) returns (r: seq<ActivityEntry>)
    requires DistinctEntries(activity)
    ensures DistinctEntries(r)
    ensures |r| == |activity| + 1 && r[..|activity|] == activity && fresh(r[|activity|])
    ensures Counts(r) == Counts(activity) + [count] && Dates(r) == Dates(activity) + [today]
  {
    var entry := new ActivityEntry(today, count);
    r := activity + [entry];
    assert Counts(r) == Counts(activity) + [count];
    assert Dates(r) == Dates(activity) + [today];
  }

  /** Logging on a log of distinct entry objects: today's entry object is
      bumped in place, or a new entry is appended. */
  method Log(activity: seq<ActivityEntry>, today: string, count: int) returns (r: seq<ActivityEntry>)
    requires DistinctEntries(activity)
    modifies activity
    ensures DistinctEntries(r)
    ensures Counts(r) == LoggedCounts(old(Counts(activity)), old(Dates(activity)), today, count)
    ensures Dates(r) == LoggedDates(old(Dates(activity)), today)
    ensures today in old(Dates(activity)) ==> r == activity
    ensures today !in old(Dates(activity)) ==>
      |r| == |activity| + 1 && r[..|activity|] == activity && fresh(r[|activity|])
  {
    ghost var counts, dates := Counts(activity), Dates(activity);
    var index := FindDate(Dates(activity), today);
    if index.Some? {
      assert today in dates;
      assert LoggedCounts(counts, dates, today, count) == counts[index.value := counts[index.value] + count];
      assert LoggedDates(dates, today) == dates;
      BumpEntry(activity, index.value, count);
      r := activity;
    } else {
      assert LoggedCounts(counts, dates, today, count) == counts + [count];
      assert LoggedDates(dates, today) == dates + [today];
      r := AppendEntry(activity, today, count);
    }
  }

  /** `logActivity(count)`: today's entry object gets `count` more, or a new
      entry `{today, count}` is pushed. `today` is the date part of the
      clock's ISO timestamp. */
  method LogActivity(s: AppStore, today: string, count: int)
    requires DistinctEntries(s.studyActivity)
    modifies s`studyActivity, s.studyActivity
    ensures DistinctEntries(s.studyActivity)
    ensures Counts(s.studyActivity) == LoggedCounts(old(Counts(s.studyActivity)), old(Dates(s.studyActivity)), today, count)
    ensures Dates(s.studyActivity) == LoggedDates(old(Dates(s.studyActivity)), today)
    ensures today in old(Dates(s.studyActivity)) ==> s.studyActivity == old(s.studyActivity)
    ensures today !in old(Dates(s.studyActivity)) ==>
      |s.studyActivity| == |old(s.studyActivity)| + 1 && s.studyActivity[..|old(s.studyActivity)|] == old(s.studyActivity)
      && fresh(s.studyActivity[|old(s.studyActivity)|])
  {
    s.studyActivity := Log(s.studyActivity, today, count);
  }

  /** `openEmbeddedChat(id, type, data)` */
  method OpenEmbeddedChat(s: AppStore, itemId: string, itemType: ItemType, itemData: Js)
    modifies s`embeddedChats
    ensures s.embeddedChats == old(s.embeddedChats)[itemId := EmbeddedChat(itemId, itemType, itemData, true)]
  {
    s.embeddedChats := s.embeddedChats[itemId := EmbeddedChat(itemId, itemType, itemData, true)];
  }

  /** `closeEmbeddedChat(id)`: the rest of the map is kept. */
  method CloseEmbeddedChat(s: AppStore, itemId: string)
    modifies s`embeddedChats
    ensures s.embeddedChats == old(s.embeddedChats) - {itemId}
  {
    s.embeddedChats := s.embeddedChats - {itemId};
  }

  method CloseAllEmbeddedChats(s: AppStore)
    modifies s`embeddedChats
    ensures s.embeddedChats == map[]
  {
    s.embeddedChats := map[];
  }

  method SetGenerationScope(s: AppStore, scope: Scope)
    modifies s`generationScope
    ensures s.generationScope == scope
  {
    s.generationScope := scope;
  }
}
