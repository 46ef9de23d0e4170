/** The sliding-window cache of recent log frames, as one atomic script run leaves it. */
module LogFrameCache {
  import opened Options

  /** A frame is a string of bytes. */
  type Frame = string

  const FRAME_BYTES := 262144

  const FRAME_COUNT := 32

  const LISTS := 128

  const LIFETIME := 120

  function Total(fs: seq<Frame>): nat { if fs == [] then 0 else |fs[0]| + Total(fs[1..]) }

  predicate Fits(fs: seq<Frame>) { Total(fs) <= 262144 && |fs| <= 32 }

  /** Popping from the left until what is left fits. */
  function Trim(fs: seq<Frame>): seq<Frame> { if Fits(fs) then fs else Trim(fs[1..]) }

  predicate Suffix(fs: seq<Frame>, all: seq<Frame>) { |fs| <= |all| && fs == all[|all| - |fs|..] }

  /** `fs` is the longest suffix of `all` that fits. */
  predicate LongestFit(fs: seq<Frame>, all: seq<Frame>) {
    && Suffix(fs, all) && Fits(fs)
    && (|fs| < |all| ==> !Fits(all[|all| - |fs| - 1..]))
  }

  lemma {:induction false} TotalConcat(a: seq<Frame>, b: seq<Frame>)
    ensures Total(a + b) == Total(a) + Total(b)
  {
    if a == [] {
      ConcatNone(b);
    } else {
      TotalConcat(a[1..], b);
      TailOfConcat(a, b);
    }
  }

  lemma {:induction false} TrimLongest(fs: seq<Frame>)
    ensures LongestFit(Trim(fs), fs)
  {
    if !Fits(fs) {
      TrimLongest(fs[1..]);
      var t := Trim(fs);
      if |t| == |fs| - 1 {
        assert fs[|fs| - |t| - 1..] == fs;
      } else {
        assert fs[|fs| - |t| - 1..] == fs[1..][|fs[1..]| - |t| - 1..];
      }
    }
  }

  /** What the longest fitting suffix is extends to the next frame: nothing popped earlier
    * could fit again. */
  lemma PushLongest(fs: seq<Frame>, all: seq<Frame>, x: Frame)
    requires LongestFit(fs, all) && |x| <= FRAME_BYTES
    ensures LongestFit(Trim(fs + [x]), all + [x]) && Trim(fs + [x]) != []
  {
    var grown := fs + [x];
    TrimLongest(grown);
    assert grown[|grown| - 1..] == [x] && Total([x]) == |x|;
    assert Suffix([x], grown) && Fits([x]);
    hide Trim, Fits, Total;
    NoneLonger(Trim(grown), grown, [x]);
    NoneBefore(fs, all, x, Trim(grown));
  }

  lemma NoneBefore(fs: seq<Frame>, all: seq<Frame>, x: Frame, t: seq<Frame>)
    requires LongestFit(fs, all) && LongestFit(t, fs + [x])
    ensures Suffix(t, all + [x]) && (|t| < |all| + 1 ==> !Fits((all + [x])[|all| + 1 - |t| - 1..]))
  {
    hide Fits;
    assert t == (fs + [x])[|fs| + 1 - |t|..] == (all + [x])[|all| + 1 - |t|..];
    if |t| < |fs| + 1 {
      assert (all + [x])[|all| + 1 - |t| - 1..] == (fs + [x])[|fs| + 1 - |t| - 1..];
    } else if |fs| < |all| {
      var longer := all[|all| - |fs| - 1..];
      assert (all + [x])[|all| + 1 - |t| - 1..] == longer + [x];
      MoreNeverFits(longer, x);
    }
  }

  lemma MoreNeverFits(fs: seq<Frame>, x: Frame)
    requires !Fits(fs)
    ensures !Fits(fs + [x])
  {
    TotalConcat(fs, [x]);
  }

  lemma {:induction false} SuffixFits(fs: seq<Frame>, k: nat)
    requires Fits(fs) && k <= |fs|
    ensures Fits(fs[k..])
  {
    assert fs == fs[..k] + fs[k..];
    TotalConcat(fs[..k], fs[k..]);
  }

  /** No suffix that fits is longer. */
  lemma NoneLonger(t: seq<Frame>, all: seq<Frame>, s: seq<Frame>)
    requires LongestFit(t, all) && Suffix(s, all) && Fits(s)
    ensures |s| <= |t|
  {
    if |s| > |t| {
      assert s[|s| - |t| - 1..] == all[|all| - |t| - 1..];
      SuffixFits(s, |s| - |t| - 1);
      assert false;
    }
  }

  lemma SubsetSize(a: set<string>, b: set<string>)
    requires a <= b
    ensures |a| <= |b|
  {
    assert b == a + (b - a);
  }

  /** A list with its byte counter; the two keys are always written, expired and deleted
    * together. */
  datatype Entry = Entry(frames: seq<Frame>, bytes: int, expiry: nat)

  type Lists = map<string, Entry>

  ghost predicate EntryOk(key: string, e: Entry, active: map<string, int>, activeExpiry: nat) {
    && Fits(e.frames) && e.frames != [] && e.bytes == Total(e.frames)
    && key in active && e.expiry <= activeExpiry
  }

  ghost predicate Sound(lists: Lists, active: map<string, int>, activeExpiry: nat) {
    forall key {:trigger key in lists} :: key in lists ==> EntryOk(key, lists[key], active, activeExpiry)
  }

  function Alive(lists: Lists, now: nat): Lists { map key | key in lists && now < lists[key].expiry :: lists[key] }

  lemma AliveSound(lists: Lists, active: map<string, int>, activeExpiry: nat, now: nat)
    requires Sound(lists, active, activeExpiry)
    ensures Sound(Alive(lists, now), if activeExpiry <= now then map[] else active, activeExpiry)
  {
  }

  function Pushed(e: Option<Entry>, frame: Frame, now: nat): Entry {
    var frames := Trim((if e.Some? then e.value.frames else []) + [frame]);
    Entry(frames, Total(frames), now + LIFETIME)
  }

  function At(lists: Lists, key: string): Option<Entry> { if key in lists then Some(lists[key]) else None }

  lemma PushedOk(e: Option<Entry>, key: string, frame: Frame, now: nat, active: map<string, int>)
    requires (e.Some? ==> Fits(e.value.frames)) && |frame| <= FRAME_BYTES && key in active
    ensures EntryOk(key, Pushed(e, frame, now), active, now + LIFETIME)
  {
    var frames := if e.Some? then e.value.frames else [];
    assert Total([]) == 0;
    PushLongest(frames, frames, frame);
  }

  lemma PushSound(lists: Lists, active: map<string, int>, activeExpiry: nat, key: string, frame: Frame, score: int,
                  now: nat)
    requires Sound(lists, active, activeExpiry) && |frame| <= FRAME_BYTES && activeExpiry <= now + LIFETIME
    ensures Sound(lists[key := Pushed(At(lists, key), frame, now)], active[key := score], now + LIFETIME)
  {
    hide Fits, Pushed;
    PushedOk(At(lists, key), key, frame, now, active[key := score]);
  }

  lemma SoundSize(lists: Lists, active: map<string, int>, activeExpiry: nat)
    requires Sound(lists, active, activeExpiry)
    ensures |lists| <= |active|
  {
    assert lists.Keys <= active.Keys;
    SubsetSize(lists.Keys, active.Keys);
    assert |lists| == |lists.Keys| && |active| == |active.Keys|;
  }

  class FrameCache {
    var lists: Lists
    /** The score of every list key in the active set, and when that set expires. */
    var active: map<string, int>
    var activeExpiry: nat
    var published: seq<Frame>
    /** Every run so far. */
    ghost var runs: seq<Ran>

    ghost predicate Valid()
      reads this
    {
      Sound(lists, active, activeExpiry) && |active| <= LISTS && Kept(runs, lists)
    }

    constructor ()
      ensures Valid() && lists == map[] && active == map[] && published == [] && runs == []
    {
      lists, active, activeExpiry, published, runs := map[], map[], 0, [], [];
    }

    /** What has outlived its time is gone. */
    method Purge(now: nat)
      requires Sound(lists, active, activeExpiry) && |active| <= LISTS
      modifies `lists, `active
      ensures Sound(lists, active, activeExpiry) && |active| <= LISTS
      ensures lists == Alive(old(lists), now) &&
        active == (if activeExpiry <= now then map[] else old(active))
    {
      AliveSound(lists, active, activeExpiry, now);
      lists := Alive(lists, now);
      if activeExpiry <= now { active := map[]; }
    }

    /** Appends the frame and pops from the left while the list is too large. */
    method Push(key: string, frame: Frame, now: nat)
      requires key in lists ==> lists[key].bytes == Total(lists[key].frames)
      modifies `lists
      ensures lists == old(lists)[key := Pushed(At(old(lists), key), frame, now)]
    {
      var frames, bytes := [], 0;
      if key in lists { frames, bytes := lists[key].frames, lists[key].bytes; }
      TotalConcat(frames, [frame]);
      assert Total([frame]) == |frame|;
      frames, bytes := frames + [frame], bytes + |frame|;
      ghost var grown := frames;
      while bytes > FRAME_BYTES || |frames| > FRAME_COUNT
        invariant bytes == Total(frames) && Trim(grown) == Trim(frames)
        decreases |frames|
      {
        bytes := bytes - |frames[0]|;
        frames := frames[1..];
      }
      lists := lists[key := Entry(frames, bytes, now + LIFETIME)];
    }

    /** The member with the lowest score. */
    method Oldest() returns (oldest: string)
      requires active != map[]
      ensures oldest in active && forall key :: key in active ==> active[oldest] <= active[key]
    {
      var left := active.Keys;
      oldest :| oldest in left;
      left := left - {oldest};
      while left != {}
        invariant oldest in active && left <= active.Keys
        invariant forall key :: key in active && key !in left ==> active[oldest] <= active[key]
        decreases |left|
      {
        var key :| key in left;
        if active[key] < active[oldest] { oldest := key; }
        left := left - {key};
      }
    }

    /** Drops whole lists, lowest score first, until at most 128 are active. */
    method Evict() returns (ghost evicted: set<string>)
      requires Sound(lists, active, activeExpiry)
      modifies `lists, `active
      ensures Sound(lists, active, activeExpiry) && |active| <= LISTS
      ensures lists == old(lists) - evicted && active == old(active) - evicted
      ensures |evicted| == if |old(active)| > LISTS then |old(active)| - LISTS else 0
      ensures LowestFirst(old(active), evicted)
    {
      evicted := {};
      hide Sound, LowestFirst;
      NoneFirst(active);
      while |active| > LISTS
        invariant Sound(lists, active, activeExpiry)
        invariant lists == old(lists) - evicted && active == old(active) - evicted && LowestFirst(old(active), evicted)
        invariant |active| + |evicted| == |old(active)| && (evicted != {} ==> |active| >= LISTS)
        decreases |active|
      {
        var oldest := Oldest();
        DropSound(lists, active, activeExpiry, oldest);
        DropOne(old(lists), old(active), evicted, oldest);
        active, lists := active - {oldest}, lists - {oldest};
        evicted := evicted + {oldest};
      }
    }

    /** Stores a frame in its list, marks the list active, and evicts what is too much. */
    method Store(key: string, frame: Frame, score: int, now: nat) returns (ghost evicted: set<string>)
      requires Sound(lists, active, activeExpiry) && |active| <= LISTS
      requires activeExpiry <= now + LIFETIME && |frame| <= FRAME_BYTES
      modifies `lists, `active, `activeExpiry
      ensures Sound(lists, active, activeExpiry) && |active| <= LISTS && activeExpiry == now + LIFETIME
      ensures |evicted| == if |old(active)[key := score]| > LISTS then 1 else 0
      ensures lists == old(lists)[key := Pushed(At(old(lists), key), frame, now)] - evicted
      ensures active == old(active)[key := score] - evicted && LowestFirst(old(active)[key := score], evicted)
    {
      hide Sound, LowestFirst, Pushed;
      PushSound(lists, active, activeExpiry, key, frame, score, now);
      if key in lists { CounterTrue(lists, active, activeExpiry, key); }
      Push(key, frame, now);
      Added(active, key, score);
      active := active[key := score];
      activeExpiry := now + LIFETIME;
      evicted := Evict();
    }

    /** One run of the script; the server's clock does not run backwards. A frame of at most
      * 262144 bytes extends its key's list, which then is the longest suffix that fits; a list
      * whose time is over is gone, and of more than 128 active keys one with the lowest score is
      * evicted; every other list stays as it is. The frame is published in any case. */
    method CacheAndPublish(key: string, frame: Frame, score: int, now: nat) returns (ghost evicted: set<string>)
      requires Valid() && activeExpiry <= now + LIFETIME
      modifies this
      ensures Valid() && |lists| <= 128 && published == old(published) + [frame]
      ensures runs == old(runs) + [Ran(key, frame, now, evicted)] && activeExpiry <= now + LIFETIME
      ensures Extends(old(lists), key, frame, now, evicted, lists)
      ensures var scores := if old(activeExpiry) <= now then map[] else old(active);
        if |frame| <= 262144 then
          && active == scores[key := score] - evicted && LowestFirst(scores[key := score], evicted)
          && |evicted| == if |scores[key := score]| > 128 then 1 else 0
        else evicted == {} && active == scores
    {
      hide Sound, LowestFirst, Pushed, LongestFit, Alive, Kept, Extends;
      Purge(now);
      evicted := {};
      MinusNone(lists);
      if |frame| <= FRAME_BYTES {
        evicted := Store(key, frame, score, now);
      }
      SoundSize(lists, active, activeExpiry);
      published := published + [frame];
      runs := runs + [Ran(key, frame, now, evicted)];
      assert lists == AfterRun(old(lists), key, frame, now) - evicted;
      RunExtends(old(lists), key, frame, now, evicted);
      RunKept(old(runs), old(lists), Ran(key, frame, now, evicted), lists);
    }
  }

  // ------------------------------------------------------------- what a list is measured by

  /** What one run was given, when, and which list it evicted. */
  datatype Ran = Ran(key: string, frame: Frame, now: nat, evicted: set<string>)

  /** When the key was last given a frame that fits, or 0. */
  function LastGiven(runs: seq<Ran>, key: string): nat {
    if runs == [] then 0
    else
      var r := runs[|runs| - 1];
      if r.key == key && |r.frame| <= 262144 then r.now else LastGiven(runs[..|runs| - 1], key)
  }

  /** The frames that fit, given for this key since its list last expired, which it does 120
    * seconds after the last of them, or was evicted. */
  function GivenTo(runs: seq<Ran>, key: string): seq<Frame> {
    if runs == [] then []
    else
      var before, r := runs[..|runs| - 1], runs[|runs| - 1];
      if key in r.evicted then []
      else
        (if LastGiven(before, key) + 120 <= r.now then [] else GivenTo(before, key)) +
        if r.key == key && |r.frame| <= 262144 then [r.frame] else []
  }

  ghost predicate KeptAt(runs: seq<Ran>, lists: Lists, key: string) {
    && (key in lists <==> GivenTo(runs, key) != [])
    && (key in lists ==>
          LongestFit(lists[key].frames, GivenTo(runs, key)) && lists[key].expiry == LastGiven(runs, key) + 120)
  }

  /** The lists are those of the keys with frames given and neither expired nor evicted, and each
    * holds the longest suffix of these frames that fits. */
  ghost predicate Kept(runs: seq<Ran>, lists: Lists) {
    forall key {:trigger KeptAt(runs, lists, key)} :: KeptAt(runs, lists, key)
  }

  ghost predicate ExtendsAt(before: Lists, key: string, frame: Frame, now: nat, evicted: set<string>, after: Lists,
                            k: string) {
    var survives, given := k in before && now < before[k].expiry, k == key && |frame| <= 262144;
    && (k in after <==> (survives || given) && k !in evicted)
    && (k in after && !given ==> after[k] == before[k])
    && (k in after && given ==>
          && LongestFit(after[k].frames, (if survives then before[k].frames else []) + [frame])
          && after[k].bytes == Total(after[k].frames) && after[k].expiry == now + 120)
  }

  /** What one run does to every list. */
  ghost predicate Extends(before: Lists, key: string, frame: Frame, now: nat, evicted: set<string>, after: Lists) {
    forall k {:trigger ExtendsAt(before, key, frame, now, evicted, after, k)} ::
      ExtendsAt(before, key, frame, now, evicted, after, k)
  }

  lemma RunExtends(before: Lists, key: string, frame: Frame, now: nat, evicted: set<string>)
    ensures Extends(before, key, frame, now, evicted, AfterRun(before, key, frame, now) - evicted)
  {
    TrimLongest((if key in before && now < before[key].expiry then before[key].frames else []) + [frame]);
    hide LongestFit, Trim, Fits, Total;
  }

  /** The longest fitting suffix of what a list held and the next frame is that of all frames. */
  lemma LongestOfAll(t: seq<Frame>, fs: seq<Frame>, all: seq<Frame>, x: Frame)
    requires LongestFit(fs, all) && LongestFit(t, fs + [x])
    ensures LongestFit(t, all + [x])
  {
    NoneBefore(fs, all, x, t);
  }

  lemma RunKept(runs: seq<Ran>, before: Lists, r: Ran, after: Lists)
    requires Kept(runs, before) && Extends(before, r.key, r.frame, r.now, r.evicted, after)
    ensures Kept(runs + [r], after)
  {
    assert (runs + [r])[..|runs|] == runs;
    forall k {:trigger KeptAt(runs + [r], after, k)}
      ensures KeptAt(runs + [r], after, k)
    {
      assert KeptAt(runs, before, k) && ExtendsAt(before, r.key, r.frame, r.now, r.evicted, after, k);
      RunKeptAt(runs, before, r, after, k);
    }
  }

  lemma RunKeptAt(runs: seq<Ran>, before: Lists, r: Ran, after: Lists, k: string)
    requires KeptAt(runs, before, k) && ExtendsAt(before, r.key, r.frame, r.now, r.evicted, after, k)
    ensures KeptAt(runs + [r], after, k)
  {
    hide LongestFit, Total, GivenTo, LastGiven;
    GivenSnoc(runs, r, k);
    var survives, given := k in before && r.now < before[k].expiry, k == r.key && |r.frame| <= 262144;
    if k in after && given {
      if survives {
        LongestOfAll(after[k].frames, before[k].frames, GivenTo(runs, k), r.frame);
      }
    }
  }

  lemma GivenSnoc(runs: seq<Ran>, r: Ran, k: string)
    ensures var given := k == r.key && |r.frame| <= 262144;
      var fs := if LastGiven(runs, k) + 120 <= r.now then [] else GivenTo(runs, k);
      && LastGiven(runs + [r], k) == (if given then r.now else LastGiven(runs, k))
      && GivenTo(runs + [r], k) == if k in r.evicted then [] else if given then fs + [r.frame] else fs
  {
    assert (runs + [r])[..|runs|] == runs;
  }

  /** The lists after one run, but for an eviction. */
  function AfterRun(lists: Lists, key: string, frame: Frame, now: nat): Lists {
    var alive := Alive(lists, now);
    if |frame| > FRAME_BYTES then alive else alive[key := Pushed(At(alive, key), frame, now)]
  }

  lemma CounterTrue(lists: Lists, active: map<string, int>, activeExpiry: nat, key: string)
    requires Sound(lists, active, activeExpiry) && key in lists
    ensures lists[key].bytes == Total(lists[key].frames)
  {
  }

  /** No evicted key has a higher score than one that stays. */
  ghost predicate LowestFirst(scores: map<string, int>, evicted: set<string>) {
    && evicted <= scores.Keys
    && forall e, key {:trigger e in evicted, key in scores} :: e in evicted && key in scores && key !in evicted ==>
         scores[e] <= scores[key]
  }

  lemma NoneFirst(scores: map<string, int>)
    ensures LowestFirst(scores, {})
  {
  }

  lemma OneMoreFirst(scores: map<string, int>, evicted: set<string>, oldest: string)
    requires LowestFirst(scores, evicted) && oldest in scores - evicted
    requires forall key :: key in scores - evicted ==> scores[oldest] <= scores[key]
    ensures LowestFirst(scores, evicted + {oldest}) && oldest !in evicted
  {
    forall e, key | e in evicted + {oldest} && key in scores && key !in evicted + {oldest}
      ensures scores[e] <= scores[key]
    {
      assert key in scores - evicted;
    }
  }

  lemma MinusNone<T>(m: map<string, T>)
    ensures m - {} == m
  {
  }

  lemma DropOne(lists: Lists, scores: map<string, int>, evicted: set<string>, oldest: string)
    requires LowestFirst(scores, evicted) && oldest in scores - evicted
    requires forall key :: key in scores - evicted ==> scores[oldest] <= scores[key]
    ensures LowestFirst(scores, evicted + {oldest}) && |evicted + {oldest}| == |evicted| + 1
    ensures (scores - evicted) - {oldest} == scores - (evicted + {oldest})
    ensures (lists - evicted) - {oldest} == lists - (evicted + {oldest})
  {
    OneMoreFirst(scores, evicted, oldest);
    hide LowestFirst;
    MinusTwice(scores, evicted, oldest);
    MinusTwice(lists, evicted, oldest);
  }

  lemma MinusTwice<T>(m: map<string, T>, a: set<string>, x: string)
    ensures (m - a) - {x} == m - (a + {x})
  {
  }

  lemma DropSound(lists: Lists, active: map<string, int>, activeExpiry: nat, key: string)
    requires Sound(lists, active, activeExpiry) && key in active
    ensures Sound(lists - {key}, active - {key}, activeExpiry) && |active - {key}| == |active| - 1
  {
    assert (active - {key}).Keys == active.Keys - {key};
    assert |active| == |active.Keys| && |active - {key}| == |(active - {key}).Keys|;
  }

  lemma Added(m: map<string, int>, key: string, score: int)
    ensures |m| <= |m[key := score]| <= |m| + 1
  {
    assert m[key := score].Keys == m.Keys + {key};
    assert |m| == |m.Keys| && |m[key := score]| == |m[key := score].Keys|;
  }
}
