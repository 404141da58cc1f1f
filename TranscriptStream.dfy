/** The simulated transcript feed of the TranscriptStream component. While the
    component is active, every tick appends the next of five sample phrases to
    the entry list, keeping only the ten most recent entries, and the phrase
    index cycles through the five phrases. The clock, the timer and the random
    confidence are inputs. */
module TranscriptStream {
  import opened Relational

  datatype Speaker = User | Other

  datatype FeedEntry = FeedEntry(id: string, timestamp: int, speaker: Speaker, text: string, confidence: real)

  datatype Phrase = Phrase(speaker: Speaker, text: string)

  const SamplePhrases: seq<Phrase> := [
    Phrase(User, "So what are your main concerns about implementing this solution?"),
    Phrase(Other, "Well, the main issue is budget. We're looking at a tight timeline."),
    Phrase(User, "I understand. Let me show you how this could actually save costs long-term."),
    Phrase(Other, "That would be helpful. We need to justify the ROI to leadership."),
    Phrase(User, "Absolutely. Based on what you've shared, I can see three key areas...")
  ]

  const WindowSize := 10

  // ---------------------------------------------------------------------------
  // The bounded window.

  /** The last n elements of s, or all of s when it is shorter. */
  function LastN<T>(s: seq<T>, n: nat): (r: seq<T>)
    ensures |r| == Min(n, |s|)
    ensures r == s[|s| - |r|..]
  {
    if |s| <= n then s else s[|s| - n..]
  }

  /** `[...prev.slice(-9), newEntry]`. */
  function AppendKeepingLast10<T>(prev: seq<T>, e: T): (r: seq<T>)
    ensures |r| == Min(|prev| + 1, WindowSize)
    ensures r[|r| - 1] == e
    ensures r[..|r| - 1] == prev[|prev| - Min(|prev|, WindowSize - 1)..]
  {
    var kept := if |prev| <= WindowSize - 1 then prev else prev[|prev| - (WindowSize - 1)..];
    assert (kept + [e])[..|kept|] == kept;
    kept + [e]
  }

  /** The window after an append is the last ten of the list with the entry added. */
  lemma AppendIsLast10<T>(prev: seq<T>, e: T)
    ensures AppendKeepingLast10(prev, e) == LastN(prev + [e], WindowSize)
  {
    var r := AppendKeepingLast10(prev, e);
    var full := prev + [e];
    var l := LastN(full, WindowSize);
    assert |r| == |l|;
    forall i | 0 <= i < |r| ensures r[i] == l[i] {
      if i < |r| - 1 {
        assert r[i] == r[..|r| - 1][i];
      }
    }
  }

  /** A run of appends, one entry at a time. */
  function FeedAll<T>(prev: seq<T>, es: seq<T>): seq<T>
    decreases es
  {
    if es == [] then prev else FeedAll(AppendKeepingLast10(prev, es[0]), es[1..])
  }

  lemma LastOfLast<T>(a: seq<T>, b: seq<T>, n: nat)
    ensures LastN(LastN(a, n) + b, n) == LastN(a + b, n)
  {
    var x := LastN(LastN(a, n) + b, n);
    var y := LastN(a + b, n);
    var la := LastN(a, n);
    assert |x| == |y|;
    forall i | 0 <= i < |x| ensures x[i] == y[i] {
      var k := |la + b| - |x| + i;
      assert x[i] == (la + b)[k];
      var k' := |a + b| - |y| + i;
      assert y[i] == (a + b)[k'];
      if k < |la| {
        assert (la + b)[k] == la[k] == a[|a| - |la| + k];
      } else {
        assert (la + b)[k] == b[k - |la|];
      }
    }
  }

  lemma SplitHead<T>(prev: seq<T>, es: seq<T>)
    requires es != []
    ensures prev + [es[0]] + es[1..] == prev + es
  {
    assert es == [es[0]] + es[1..];
  }

  /** However many entries arrive, starting from a list of at most ten, the
      feed shows the last ten of everything. */
  lemma {:induction false} FeedAllIsLast10<T>(prev: seq<T>, es: seq<T>)
    requires |prev| <= WindowSize
    ensures FeedAll(prev, es) == LastN(prev + es, WindowSize)
    decreases es
  {
    if es == [] {
      assert prev + es == prev;
    } else {
      var next := AppendKeepingLast10(prev, es[0]);
      AppendIsLast10(prev, es[0]);
      FeedAllIsLast10(next, es[1..]);
      LastOfLast(prev + [es[0]], es[1..], WindowSize);
      var whole := prev + [es[0]] + es[1..];
      SplitHead(prev, es);
      calc {
        FeedAll(prev, es);
        FeedAll(next, es[1..]);
        LastN(next + es[1..], WindowSize);
        LastN(LastN(prev + [es[0]], WindowSize) + es[1..], WindowSize);
        LastN(whole, WindowSize);
      }
    }
  }

  // ---------------------------------------------------------------------------
  // The phrase cycle.

  /** The phrase index after k ticks of one activation. */
  function IndexAfter(k: nat): int
  {
    if k == 0 then 0 else (IndexAfter(k - 1) + 1) % |SamplePhrases|
  }

  lemma {:induction false} IndexAfterIsMod(k: nat)
    ensures IndexAfter(k) == k % |SamplePhrases|
  {
    if k > 0 {
      IndexAfterIsMod(k - 1);
      ModFiveStep(k - 1);
    }
  }

  lemma ModFiveStep(j: nat)
    ensures ((j % |SamplePhrases|) + 1) % |SamplePhrases| == (j + 1) % |SamplePhrases|
  {
    assert |SamplePhrases| == 5;
    var q := j / 5;
    assert j == q * 5 + j % 5;
    if j % 5 < 4 {
      assert j + 1 == q * 5 + (j % 5 + 1);
    } else {
      assert j + 1 == (q + 1) * 5;
    }
  }

  /** The component state the interval callback reads and writes: the entry
      list, the callback's phrase index, and whether the effect is running. */
  class TranscriptFeed {
    var entries: seq<FeedEntry>
    var phraseIndex: int
    var running: bool

    predicate Valid()
      reads this
    {
      0 <= phraseIndex < |SamplePhrases| && |entries| <= WindowSize
    }

    /** The component mounts inactive with no entries. */
    constructor ()
      ensures Valid() && entries == [] && !running && phraseIndex == 0
    {
      entries := [];
      phraseIndex := 0;
      running := false;
    }

    /** A change of isActive reruns the effect: the old interval is cleared and,
        when active, a new one starts with phrase index 0. An unchanged value
        does not rerun it. */
    method SetActive(active: bool)
      requires Valid()
      modifies this
      ensures Valid()
      ensures entries == old(entries) && running == active
      ensures phraseIndex == if active && !old(running) then 0 else old(phraseIndex)
    {
      if active != running {
        running := active;
        if active {
          phraseIndex := 0;
        }
      }
    }

    /** One interval tick. The id, the clock and the random draw in [0, 1) behind
        the confidence are inputs. Nothing happens while inactive. */
    method Tick(id: string, now: int, draw: real)
      requires Valid()
      requires 0.0 <= draw < 1.0
      modifies this
      ensures Valid()
      ensures running == old(running)
      ensures !running ==> entries == old(entries) && phraseIndex == old(phraseIndex)
      ensures running ==>
                var p := SamplePhrases[old(phraseIndex)];
                && entries == AppendKeepingLast10(old(entries),
                                FeedEntry(id, now, p.speaker, p.text, draw * 0.2 + 0.8))
                && phraseIndex == (old(phraseIndex) + 1) % |SamplePhrases|
      ensures running ==> 0.8 <= entries[|entries| - 1].confidence < 1.0
    {
      if !running {
        return;
      }
      if phraseIndex < |SamplePhrases| {
        var p := SamplePhrases[phraseIndex];
        var entry := FeedEntry(id, now, p.speaker, p.text, draw * 0.2 + 0.8);
        entries := AppendKeepingLast10(entries, entry);
        phraseIndex := (phraseIndex + 1) % |SamplePhrases|;
      }
    }
  }

  /** The texts of a run of ticks from activation: the phrases in cyclic order. */
  lemma TickTextsCycle(k: nat)
    ensures SamplePhrases[IndexAfter(k)] == SamplePhrases[k % 5]
    ensures IndexAfter(k + 5) == IndexAfter(k)
  {
    IndexAfterIsMod(k);
    IndexAfterIsMod(k + 5);
  }
}
