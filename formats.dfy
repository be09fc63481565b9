/** The format normaliser `YouTubeService._parse_formats`: classify the raw
    format records, sort them by descending height (an audio entry counts as
    height 0) and keep the first entry of every height and the first audio
    entry.  `Normalize` is the reference definition (classify, then a stable
    sort, then first-per-slot); `ParseFormats` is the two-loop procedure of
    the service, proved equal to it. */
module Formats {
  import opened Common
  import opened Config
  import opened Schemas

  /** One format record as the extractor reports it: a dictionary whose keys
      may be missing (`Absent`) or hold None (`Null`).  The `tbr` field is a
      float and is not part of this model. */
  datatype RawFormat = RawFormat(
    formatId: Field<string>,
    ext: Field<string>,
    resolution: Field<string>,
    width: Field<int>,
    height: Field<int>,
    fps: Field<int>,
    filesize: Field<int>,
    filesizeApprox: Field<int>,
    vcodec: Field<string>,
    acodec: Field<string>,
    formatNote: Field<string>)

  /** `fmt.get('vcodec') == 'none' and fmt.get('acodec') != 'none'`: a missing
      or None acodec counts as "not none". */
  predicate IsAudio(f: RawFormat)
  {
    f.vcodec == Val("none") && f.acodec != Val("none")
  }

  /** `fmt.get('height', 0) and fmt.get('height', 0) <= max_height`: a height
      that is present, not None and not 0, and at most the cap (a negative
      height passes). */
  predicate KeptHeight(f: RawFormat, maxHeight: nat)
  {
    f.height.Val? && f.height.value != 0 && f.height.value <= maxHeight
  }

  /** `fmt.get('filesize', 0) or fmt.get('filesize_approx', 0)`. */
  function Filesize(f: RawFormat): (r: Option<int>)
    ensures f.filesize.Val? && f.filesize.value != 0 ==> r == Some(f.filesize.value)
    ensures !(f.filesize.Val? && f.filesize.value != 0) ==> r == Get(f.filesizeApprox, 0)
  {
    match Get(f.filesize, 0)
    case Some(v) => if v != 0 then Some(v) else Get(f.filesizeApprox, 0)
    case None => Get(f.filesizeApprox, 0)
  }

  /** The entry built for an audio-only record; the keys the service does not
      set are None in the response record. */
  function AudioEntry(f: RawFormat): VideoFormat
  {
    VideoFormat(Get(f.formatId, ""), Get(f.ext, ""), None, None, None, None,
                Filesize(f), None, Get(f.acodec, ""), Some("Audio only"), true)
  }

  /** The entry built for a kept video record. */
  function VideoEntry(f: RawFormat, h: int): VideoFormat
  {
    VideoFormat(Get(f.formatId, ""), Get(f.ext, ""), Get(f.resolution, "unknown"),
                Get(f.width, 0), Some(h), Get(f.fps, 0), Filesize(f),
                Get(f.vcodec, ""), Get(f.acodec, ""), Get(f.formatNote, ""), false)
  }

  /** Both entries start from the schema's defaults: an audio entry sets
      only `filesize`, `acodec`, the note and the audio flag, so every video
      field keeps its default None, and a video entry keeps `audio_only` at
      its default false. */
  lemma EntriesFromDefaults(f: RawFormat, h: int)
    ensures var e := AudioEntry(f);
      e == NewVideoFormat(e.formatId, e.ext).(filesize := e.filesize, acodec := e.acodec,
                                              formatNote := Some("Audio only"), audioOnly := true)
    ensures VideoEntry(f, h).audioOnly == NewVideoFormat(None, None).audioOnly
  {
  }

  /** What every classified entry looks like: an audio entry carries no video
      field and the note "Audio only"; a video entry has a non-zero height
      within the cap. */
  predicate WellShaped(e: VideoFormat, maxHeight: nat)
  {
    if e.audioOnly then
      e.resolution.None? && e.width.None? && e.height.None? && e.fps.None?
      && e.vcodec.None? && e.formatNote == Some("Audio only")
    else
      e.height.Some? && e.height.value != 0 && e.height.value <= maxHeight
  }

  /** One step of the first loop.  `None` stands for a falsy entry (None or an
      empty dictionary), which is skipped. */
  function ClassifyOne(x: Option<RawFormat>, maxHeight: nat): (r: Option<VideoFormat>)
    ensures x.None? ==> r.None?
    ensures r.Some? <==> x.Some? && (IsAudio(x.value) || KeptHeight(x.value, maxHeight))
    ensures r.Some? ==> (r.value.audioOnly <==> IsAudio(x.value))
    ensures r.Some? ==> WellShaped(r.value, maxHeight)
    ensures r.Some? ==> r.value.filesize == Filesize(x.value)
    ensures r.Some? ==> r.value.formatId == Get(x.value.formatId, "") && r.value.ext == Get(x.value.ext, "")
    ensures r.Some? && !r.value.audioOnly ==> r.value.height == Some(x.value.height.value)
  {
    match x
    case None => None
    case Some(f) =>
      if IsAudio(f) then Some(AudioEntry(f))
      else if KeptHeight(f, maxHeight) then Some(VideoEntry(f, f.height.value))
      else None
  }

  /** The list the first loop builds, in input order. */
  function Classify(fs: seq<Option<RawFormat>>, maxHeight: nat): (r: seq<VideoFormat>)
    ensures |r| <= |fs|
    ensures forall e :: e in r ==> WellShaped(e, maxHeight)
  {
    if fs == [] then []
    else
      var rest := Classify(fs[..|fs| - 1], maxHeight);
      match ClassifyOne(fs[|fs| - 1], maxHeight)
      case None => rest
      case Some(e) => rest + [e]
  }

  /** The sort key `0 if audio_only else height`. */
  function Key(f: VideoFormat): int
  {
    if f.audioOnly then 0 else match f.height case Some(h) => h case None => 0
  }

  predicate SortedDesc(s: seq<VideoFormat>)
  {
    forall i, j :: 0 <= i < j < |s| ==> Key(s[i]) >= Key(s[j])
  }

  /** Insert `x` after every element whose key is not smaller than its own. */
  function InsertDesc(t: seq<VideoFormat>, x: VideoFormat): (r: seq<VideoFormat>)
    ensures multiset(r) == multiset(t) + multiset{x}
    ensures |r| == |t| + 1
  {
    if t == [] then [x]
    else if Key(t[0]) < Key(x) then [x] + t
    else
      assert t == [t[0]] + t[1..];
      [t[0]] + InsertDesc(t[1..], x)
  }

  /** `list.sort(key=Key, reverse=True)`: a stable sort by descending key,
      written as an insertion sort. */
  function SortDesc(s: seq<VideoFormat>): (r: seq<VideoFormat>)
    ensures multiset(r) == multiset(s)
    ensures |r| == |s|
  {
    if s == [] then []
    else
      assert s == s[..|s| - 1] + [s[|s| - 1]];
      InsertDesc(SortDesc(s[..|s| - 1]), s[|s| - 1])
  }

  /** The groups of the second loop: the audio entries share one slot, each
      height has its own. */
  datatype Slot = AudioSlot | HeightSlot(h: int)

  /** The slot an entry claims in `seen_resolutions`; None for a video entry
      whose height is None or 0 (the loop passes over it). */
  function SlotOf(f: VideoFormat): Option<Slot>
  {
    if f.audioOnly then Some(AudioSlot)
    else match f.height
      case Some(h) => if h != 0 then Some(HeightSlot(h)) else None
      case None => None
  }

  /** The slots claimed by the entries of `s`. */
  function SlotSet(s: seq<VideoFormat>): set<Slot>
  {
    if s == [] then {}
    else
      var last := s[|s| - 1];
      SlotSet(s[..|s| - 1]) + (match SlotOf(last) case Some(sl) => {sl} case None => {})
  }

  /** The entries of `s` that claim slot `sl`, in order. */
  function FilterSlot(s: seq<VideoFormat>, sl: Slot): seq<VideoFormat>
  {
    if s == [] then []
    else
      var last := s[|s| - 1];
      FilterSlot(s[..|s| - 1], sl) + (if SlotOf(last) == Some(sl) then [last] else [])
  }

  /** The second loop as a definition: keep an entry exactly when it claims a
      slot that no earlier entry claimed. */
  function Dedup(s: seq<VideoFormat>): seq<VideoFormat>
  {
    if s == [] then []
    else
      var rest := s[..|s| - 1];
      var last := s[|s| - 1];
      match SlotOf(last)
      case None => Dedup(rest)
      case Some(sl) => if sl in SlotSet(rest) then Dedup(rest) else Dedup(rest) + [last]
  }

  /** The normalised list of a non-empty format list. */
  function Normalize(fs: seq<Option<RawFormat>>, maxHeight: nat): seq<VideoFormat>
  {
    Dedup(SortDesc(Classify(fs, maxHeight)))
  }

  /** `_parse_formats(formats)` as a definition: a missing or empty list gives
      the empty list, and the height cap is only read otherwise. */
  function ParsedFormats(formats: Option<seq<Option<RawFormat>>>, settings: Settings): seq<VideoFormat>
    requires formats.Some? && formats.value != [] ==> ValidResolution(settings.maxResolution)
  {
    if formats.None? || formats.value == [] then [] else Normalize(formats.value, MaxHeight(settings))
  }

  /** `_parse_formats`: the first loop appends the classified entries, the list
      is sorted in place, and the second loop keeps the first entry of every
      slot, recording the slots in a set. */
  method ParseFormats(formats: Option<seq<Option<RawFormat>>>, settings: Settings) returns (unique: seq<VideoFormat>)
    requires formats.Some? && formats.value != [] ==> ValidResolution(settings.maxResolution)
    ensures unique == ParsedFormats(formats, settings)
  {
    if formats.None? || formats.value == [] {
      return [];
    }
    var fs := formats.value;
    var maxHeight := MaxHeight(settings);
    var filtered: seq<VideoFormat> := [];
    for i := 0 to |fs|
      invariant filtered == Classify(fs[..i], maxHeight)
    {
      assert fs[..i + 1][..i] == fs[..i];
      if fs[i].None? {
        continue;
      }
      var fmt := fs[i].value;
      if fmt.vcodec == Val("none") && fmt.acodec != Val("none") {
        filtered := filtered + [AudioEntry(fmt)];
      } else if fmt.height.Val? && fmt.height.value != 0 && fmt.height.value <= maxHeight {
        filtered := filtered + [VideoEntry(fmt, fmt.height.value)];
      }
    }
    assert fs[..|fs|] == fs;
    filtered := SortDesc(filtered);
    var seen: set<Slot> := {};
    unique := [];
    for i := 0 to |filtered|
      invariant unique == Dedup(filtered[..i])
      invariant seen == SlotSet(filtered[..i])
    {
      assert filtered[..i + 1][..i] == filtered[..i];
      var fmt := filtered[i];
      if fmt.audioOnly {
        if AudioSlot !in seen {
          seen := seen + {AudioSlot};
          unique := unique + [fmt];
        }
        continue;
      }
      var height := fmt.height;
      if height.Some? && height.value != 0 && HeightSlot(height.value) !in seen {
        seen := seen + {HeightSlot(height.value)};
        unique := unique + [fmt];
      }
    }
    assert filtered[..|filtered|] == filtered;
  }

  // ---------------------------------------------------------------------
  // The sort: ordered, a permutation, and stable within every slot.

  /** Two entries in the same slot have the same key, and two entries with a
      slot and the same key are in the same slot. */
  lemma SlotDeterminesKey(a: VideoFormat, b: VideoFormat)
    requires SlotOf(a).Some? && SlotOf(b).Some?
    ensures SlotOf(a) == SlotOf(b) <==> Key(a) == Key(b)
  {
  }

  lemma SortedTail(t: seq<VideoFormat>)
    requires t != [] && SortedDesc(t)
    ensures SortedDesc(t[1..])
    ensures forall e :: e in t[1..] ==> Key(e) <= Key(t[0])
  {
    forall e | e in t[1..] ensures Key(e) <= Key(t[0]) {
      var m :| 0 <= m < |t[1..]| && t[1..][m] == e;
      assert t[m + 1] == e;
    }
  }

  lemma {:induction false} InsertSorted(t: seq<VideoFormat>, x: VideoFormat)
    requires SortedDesc(t)
    ensures SortedDesc(InsertDesc(t, x))
  {
    if t == [] {
    } else if Key(t[0]) < Key(x) {
      PrependLargest(x, t);
    } else {
      SortedTail(t);
      InsertSorted(t[1..], x);
      var r := InsertDesc(t[1..], x);
      assert InsertDesc(t, x) == [t[0]] + r;
      forall k | 0 <= k < |r| ensures Key(r[k]) <= Key(t[0]) {
        assert r[k] in multiset(r);
      }
      PrependLargest(t[0], r);
    }
  }

  lemma PrependLargest(x: VideoFormat, r: seq<VideoFormat>)
    requires SortedDesc(r)
    requires forall k :: 0 <= k < |r| ==> Key(r[k]) <= Key(x)
    ensures SortedDesc([x] + r)
  {
    var s := [x] + r;
    forall i, j | 0 <= i < j < |s| ensures Key(s[i]) >= Key(s[j]) {
      assert s[j] == r[j - 1];
      if i > 0 {
        assert s[i] == r[i - 1];
      }
    }
  }

  /** The sorted list is ordered by descending key and is a permutation of
      its input. */
  lemma {:induction false} SortDescSorted(s: seq<VideoFormat>)
    ensures SortedDesc(SortDesc(s))
    ensures multiset(SortDesc(s)) == multiset(s)
  {
    if s != [] {
      SortDescSorted(s[..|s| - 1]);
      InsertSorted(SortDesc(s[..|s| - 1]), s[|s| - 1]);
    }
  }

  lemma {:induction false} FilterConcat(a: seq<VideoFormat>, b: seq<VideoFormat>, sl: Slot)
    ensures FilterSlot(a + b, sl) == FilterSlot(a, sl) + FilterSlot(b, sl)
    decreases |b|
  {
    if b == [] {
      assert a + b == a;
    } else {
      var c := a + b;
      assert c[..|c| - 1] == a + b[..|b| - 1];
      assert c[|c| - 1] == b[|b| - 1];
      FilterConcat(a, b[..|b| - 1], sl);
    }
  }

  /** No entry of a list whose keys are all below `x`'s shares `x`'s slot. */
  lemma {:induction false} NoneOfSlot(s: seq<VideoFormat>, x: VideoFormat, sl: Slot)
    requires SlotOf(x) == Some(sl)
    requires forall e :: e in s ==> Key(e) < Key(x)
    ensures FilterSlot(s, sl) == []
  {
    if s != [] {
      var last := s[|s| - 1];
      assert last in s;
      forall e | e in s[..|s| - 1] ensures Key(e) < Key(x) {
        var m :| 0 <= m < |s[..|s| - 1]| && s[..|s| - 1][m] == e;
        assert s[m] == e;
      }
      NoneOfSlot(s[..|s| - 1], x, sl);
      if SlotOf(last).Some? {
        SlotDeterminesKey(last, x);
      }
    }
  }

  lemma {:induction false} InsertStable(t: seq<VideoFormat>, x: VideoFormat, sl: Slot)
    requires SortedDesc(t)
    ensures FilterSlot(InsertDesc(t, x), sl) == FilterSlot(t, sl) + FilterSlot([x], sl)
  {
    if t == [] {
      assert [x] == [] + [x];
    } else if Key(t[0]) < Key(x) {
      InsertInFront(t, x, sl);
    } else {
      SortedTail(t);
      InsertStable(t[1..], x, sl);
      InsertBehind(t, x, sl);
    }
  }

  /** `x` goes first: no entry of `t` shares its slot. */
  lemma InsertInFront(t: seq<VideoFormat>, x: VideoFormat, sl: Slot)
    requires SortedDesc(t) && t != [] && Key(t[0]) < Key(x)
    ensures FilterSlot(InsertDesc(t, x), sl) == FilterSlot(t, sl) + FilterSlot([x], sl)
  {
    FilterConcat([x], t, sl);
    if SlotOf(x) == Some(sl) {
      forall e | e in t ensures Key(e) < Key(x) {
        var m :| 0 <= m < |t| && t[m] == e;
        assert Key(t[m]) <= Key(t[0]);
      }
      NoneOfSlot(t, x, sl);
    } else {
      assert FilterSlot([x], sl) == FilterSlot([], sl);
    }
  }

  /** `x` goes behind the head of `t`. */
  lemma InsertBehind(t: seq<VideoFormat>, x: VideoFormat, sl: Slot)
    requires t != [] && Key(t[0]) >= Key(x)
    requires FilterSlot(InsertDesc(t[1..], x), sl) == FilterSlot(t[1..], sl) + FilterSlot([x], sl)
    ensures FilterSlot(InsertDesc(t, x), sl) == FilterSlot(t, sl) + FilterSlot([x], sl)
  {
    var tail := t[1..];
    var ins := InsertDesc(tail, x);
    var head := FilterSlot([t[0]], sl);
    assert t == [t[0]] + tail;
    FilterConcat([t[0]], ins, sl);
    FilterConcat([t[0]], tail, sl);
    calc {
      FilterSlot(InsertDesc(t, x), sl);
      FilterSlot([t[0]] + ins, sl);
      head + FilterSlot(ins, sl);
      head + (FilterSlot(tail, sl) + FilterSlot([x], sl));
      (head + FilterSlot(tail, sl)) + FilterSlot([x], sl);
      FilterSlot(t, sl) + FilterSlot([x], sl);
    }
  }

  /** Stability: within one slot the sorted list keeps the input order. */
  lemma {:induction false} SortStable(s: seq<VideoFormat>, sl: Slot)
    ensures FilterSlot(SortDesc(s), sl) == FilterSlot(s, sl)
  {
    if s != [] {
      var rest := s[..|s| - 1];
      var last := s[|s| - 1];
      assert SortDesc(s) == InsertDesc(SortDesc(rest), last);
      SortStable(rest, sl);
      InsertIntoSorted(rest, last, sl);
      FilterConcat(rest, [last], sl);
      assert rest + [last] == s;
    }
  }

  lemma InsertIntoSorted(rest: seq<VideoFormat>, last: VideoFormat, sl: Slot)
    ensures FilterSlot(InsertDesc(SortDesc(rest), last), sl) == FilterSlot(SortDesc(rest), sl) + FilterSlot([last], sl)
  {
    SortDescSorted(rest);
    InsertStable(SortDesc(rest), last, sl);
  }

  // ---------------------------------------------------------------------
  // The first-per-slot pass.

  lemma {:induction false} SlotSetFilter(s: seq<VideoFormat>, sl: Slot)
    ensures sl in SlotSet(s) <==> FilterSlot(s, sl) != []
  {
    if s != [] {
      SlotSetFilter(s[..|s| - 1], sl);
    }
  }

  /** Every kept entry comes from the input, claims a slot, and no two kept
      entries claim the same slot; the kept entries claim every slot of the
      input. */
  lemma DedupSlots(s: seq<VideoFormat>)
    ensures forall e :: e in Dedup(s) ==> e in s
    ensures forall i :: 0 <= i < |Dedup(s)| ==> SlotOf(Dedup(s)[i]).Some?
    ensures forall i, j :: 0 <= i < j < |Dedup(s)| ==> SlotOf(Dedup(s)[i]) != SlotOf(Dedup(s)[j])
    ensures SlotSet(Dedup(s)) == SlotSet(s)
  {
    DedupFromInput(s);
    DedupClaims(s);
    DedupDistinct(s);
  }

  lemma {:induction false} DedupFromInput(s: seq<VideoFormat>)
    ensures forall e :: e in Dedup(s) ==> e in s
    ensures forall i :: 0 <= i < |Dedup(s)| ==> SlotOf(Dedup(s)[i]).Some?
  {
    if s != [] {
      var rest := s[..|s| - 1];
      var last := s[|s| - 1];
      DedupFromInput(rest);
      var out := Dedup(rest);
      if SlotOf(last).Some? && SlotOf(last).value !in SlotSet(rest) {
        assert Dedup(s) == out + [last];
        forall e | e in out + [last] ensures e in s {
          if e in out {
            assert e in rest;
          }
        }
      } else {
        assert Dedup(s) == out;
        forall e | e in out ensures e in s {
          assert e in rest;
        }
      }
    }
  }

  lemma {:induction false} DedupClaims(s: seq<VideoFormat>)
    ensures SlotSet(Dedup(s)) == SlotSet(s)
  {
    if s != [] {
      var rest := s[..|s| - 1];
      var last := s[|s| - 1];
      DedupClaims(rest);
      var out := Dedup(rest);
      if SlotOf(last).Some? && SlotOf(last).value !in SlotSet(rest) {
        var r := out + [last];
        assert Dedup(s) == r;
        assert r[..|r| - 1] == out && r[|r| - 1] == last;
      } else {
        assert Dedup(s) == out;
      }
    }
  }

  lemma {:induction false} DedupDistinct(s: seq<VideoFormat>)
    ensures forall i, j :: 0 <= i < j < |Dedup(s)| ==> SlotOf(Dedup(s)[i]) != SlotOf(Dedup(s)[j])
  {
    if s != [] {
      var rest := s[..|s| - 1];
      var last := s[|s| - 1];
      DedupDistinct(rest);
      var out := Dedup(rest);
      if SlotOf(last).Some? && SlotOf(last).value !in SlotSet(rest) {
        var r := out + [last];
        assert Dedup(s) == r;
        DedupClaims(rest);
        forall i | 0 <= i < |out| ensures SlotOf(out[i]) != SlotOf(last) {
          if SlotOf(out[i]).Some? {
            SlotInSet(out, i);
          }
        }
        forall i, j | 0 <= i < j < |r| ensures SlotOf(r[i]) != SlotOf(r[j]) {
          if j < |out| {
            assert r[i] == out[i] && r[j] == out[j];
          } else {
            assert r[i] == out[i] && r[j] == last;
          }
        }
      } else {
        assert Dedup(s) == out;
      }
    }
  }

  lemma {:induction false} SlotInSet(s: seq<VideoFormat>, i: nat)
    requires i < |s| && SlotOf(s[i]).Some?
    ensures SlotOf(s[i]).value in SlotSet(s)
  {
    if i < |s| - 1 {
      SlotInSet(s[..|s| - 1], i);
    }
  }

  /** Each kept entry is the first entry of its slot in the input. */
  lemma {:induction false} DedupFirst(s: seq<VideoFormat>)
    ensures forall i :: 0 <= i < |Dedup(s)| ==>
      SlotOf(Dedup(s)[i]).Some? && FilterSlot(s, SlotOf(Dedup(s)[i]).value) != []
      && FilterSlot(s, SlotOf(Dedup(s)[i]).value)[0] == Dedup(s)[i]
  {
    if s != [] {
      var rest := s[..|s| - 1];
      var last := s[|s| - 1];
      DedupFirst(rest);
      DedupSlots(rest);
      var out := Dedup(rest);
      forall i | 0 <= i < |out|
        ensures FilterSlot(s, SlotOf(out[i]).value) != [] && FilterSlot(s, SlotOf(out[i]).value)[0] == out[i]
      {
      }
      if SlotOf(last).Some? && SlotOf(last).value !in SlotSet(rest) {
        SlotSetFilter(rest, SlotOf(last).value);
        assert FilterSlot(s, SlotOf(last).value) == [last];
      }
    }
  }

  lemma {:induction false} DedupSorted(s: seq<VideoFormat>)
    requires SortedDesc(s)
    ensures SortedDesc(Dedup(s))
  {
    if s != [] {
      var rest := s[..|s| - 1];
      var last := s[|s| - 1];
      assert SortedDesc(rest) by {
        forall i, j | 0 <= i < j < |rest| ensures Key(rest[i]) >= Key(rest[j]) {
          assert rest[i] == s[i] && rest[j] == s[j];
        }
      }
      DedupSorted(rest);
      var out := Dedup(rest);
      if SlotOf(last).Some? && SlotOf(last).value !in SlotSet(rest) {
        DedupFromInput(rest);
        forall k | 0 <= k < |out| ensures Key(out[k]) >= Key(last) {
          assert out[k] in rest;
          var m :| 0 <= m < |rest| && rest[m] == out[k];
          assert s[m] == out[k];
        }
        AppendSmallest(out, last);
      } else {
        assert Dedup(s) == out;
      }
    }
  }

  lemma AppendSmallest(out: seq<VideoFormat>, last: VideoFormat)
    requires SortedDesc(out)
    requires forall k :: 0 <= k < |out| ==> Key(out[k]) >= Key(last)
    ensures SortedDesc(out + [last])
  {
    var r := out + [last];
    forall i, j | 0 <= i < j < |r| ensures Key(r[i]) >= Key(r[j]) {
      assert r[i] == out[i];
      if j < |out| {
        assert r[j] == out[j];
      }
    }
  }

  // ---------------------------------------------------------------------
  // What the service promises about its output.

  /** The keys strictly decrease along the output: it is sorted, and since
      every slot occurs once, no two keys are equal. */
  lemma NormalizeStrictlyDescending(fs: seq<Option<RawFormat>>, maxHeight: nat)
    ensures forall i, j :: 0 <= i < j < |Normalize(fs, maxHeight)| ==>
      Key(Normalize(fs, maxHeight)[i]) > Key(Normalize(fs, maxHeight)[j])
  {
    var sorted := SortDesc(Classify(fs, maxHeight));
    SortDescSorted(Classify(fs, maxHeight));
    DedupSorted(sorted);
    DedupSlots(sorted);
    var out := Dedup(sorted);
    forall i, j | 0 <= i < j < |out| ensures Key(out[i]) > Key(out[j]) {
      SlotDeterminesKey(out[i], out[j]);
    }
  }

  /** At most one audio entry, and no two video entries of the same height. */
  lemma NormalizeOnePerSlot(fs: seq<Option<RawFormat>>, maxHeight: nat)
    ensures forall i, j :: 0 <= i < j < |Normalize(fs, maxHeight)| ==>
      !(Normalize(fs, maxHeight)[i].audioOnly && Normalize(fs, maxHeight)[j].audioOnly)
    ensures forall i, j :: 0 <= i < j < |Normalize(fs, maxHeight)| ==>
      !Normalize(fs, maxHeight)[i].audioOnly && !Normalize(fs, maxHeight)[j].audioOnly ==>
      Normalize(fs, maxHeight)[i].height != Normalize(fs, maxHeight)[j].height
  {
    DedupSlots(SortDesc(Classify(fs, maxHeight)));
  }

  /** The entry kept for a slot is the first entry of that slot in input
      order, and every slot that occurs in the input is represented. */
  lemma NormalizeFirstWins(fs: seq<Option<RawFormat>>, maxHeight: nat)
    ensures forall i :: 0 <= i < |Normalize(fs, maxHeight)| ==>
      SlotOf(Normalize(fs, maxHeight)[i]).Some?
      && FilterSlot(Classify(fs, maxHeight), SlotOf(Normalize(fs, maxHeight)[i]).value) != []
      && FilterSlot(Classify(fs, maxHeight), SlotOf(Normalize(fs, maxHeight)[i]).value)[0] == Normalize(fs, maxHeight)[i]
    ensures SlotSet(Normalize(fs, maxHeight)) == SlotSet(Classify(fs, maxHeight))
  {
    var c := Classify(fs, maxHeight);
    var sorted := SortDesc(c);
    DedupFirst(sorted);
    DedupSlots(sorted);
    forall sl: Slot ensures FilterSlot(sorted, sl) == FilterSlot(c, sl) && (sl in SlotSet(sorted) <==> sl in SlotSet(c)) {
      SortStable(c, sl);
      SlotSetFilter(sorted, sl);
      SlotSetFilter(c, sl);
    }
  }

  lemma {:induction false} ClassifyDerived(fs: seq<Option<RawFormat>>, maxHeight: nat, e: VideoFormat)
    requires e in Classify(fs, maxHeight)
    ensures exists j :: 0 <= j < |fs| && ClassifyOne(fs[j], maxHeight) == Some(e)
  {
    var rest := fs[..|fs| - 1];
    if e in Classify(rest, maxHeight) {
      ClassifyDerived(rest, maxHeight, e);
      var j :| 0 <= j < |rest| && ClassifyOne(rest[j], maxHeight) == Some(e);
      assert fs[j] == rest[j];
    } else {
      assert ClassifyOne(fs[|fs| - 1], maxHeight) == Some(e);
    }
  }

  /** Every output entry is the classification of one input record, and is
      well shaped: no video field and the note "Audio only" on the audio
      entry, a non-zero height within the cap on a video entry. */
  lemma NormalizeDerived(fs: seq<Option<RawFormat>>, maxHeight: nat, e: VideoFormat)
    requires e in Normalize(fs, maxHeight)
    ensures exists j :: 0 <= j < |fs| && fs[j].Some? && ClassifyOne(fs[j], maxHeight) == Some(e)
    ensures WellShaped(e, maxHeight)
  {
    var c := Classify(fs, maxHeight);
    DedupSlots(SortDesc(c));
    SortDescSorted(c);
    assert e in multiset(SortDesc(c));
    ClassifyDerived(fs, maxHeight, e);
  }

  /** A missing or empty list gives the empty list whatever the settings. */
  lemma ParsedFormatsOfNothing(settings: Settings)
    ensures ParsedFormats(None, settings) == [] && ParsedFormats(Some([]), settings) == []
  {
  }
}
