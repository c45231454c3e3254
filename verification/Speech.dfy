/** What an utterance is, said about the history of pushes alone: no state machine,
    no buffers, no labels.

    An utterance opens with an active push and ends at the push that makes exactly
    `h` passive pushes in a row after an active one.  Its PCM is that of its active
    pushes, in order. */
module Speech {
  import opened Std

  datatype Push = Active(pcm: seq<Byte>) | Passive

  /** The last push of the history is the h-th passive one after an active one. */
  predicate EndsNow(ps: seq<Push>, h: nat) {
    && |ps| > h
    && ps[|ps| - 1 - h].Active?
    && forall k | |ps| - h <= k < |ps| :: ps[k].Passive?
  }

  /** How many pushes there are up to and including the last utterance end. */
  function LastEnd(ps: seq<Push>, h: nat): (e: nat)
    ensures e <= |ps|
    ensures e > 0 ==> EndsNow(ps[..e], h)
    ensures forall k | e < k <= |ps| :: !EndsNow(ps[..k], h)
  {
    if ps == [] then 0
    else if EndsNow(ps, h) then assert ps[..|ps|] == ps; |ps|
    else
      var e := LastEnd(Init(ps), h);
      assert forall k | 0 <= k < |ps| :: Init(ps)[..k] == ps[..k];
      assert ps[..|ps|] == ps;
      e
  }

  function ActivePcm(ps: seq<Push>): seq<Byte> {
    if ps == [] then []
    else ActivePcm(Init(ps)) + (if Last(ps).Active? then Last(ps).pcm else [])
  }

  /** The active PCM of the utterance that is still open. */
  function Current(ps: seq<Push>, h: nat): seq<Byte> {
    ActivePcm(ps[LastEnd(ps, h)..])
  }

  /** The PCM of every utterance that has ended, oldest first. */
  function Completed(ps: seq<Push>, h: nat): seq<seq<Byte>> {
    if ps == [] then []
    else if EndsNow(ps, h) then Completed(Init(ps), h) + [Current(Init(ps), h)]
    else Completed(Init(ps), h)
  }

  /** How many passive pushes the history ends with. */
  function Trailing(ps: seq<Push>): (t: nat)
    ensures t <= |ps|
    ensures forall k | |ps| - t <= k < |ps| :: ps[k].Passive?
    ensures t < |ps| ==> ps[|ps| - 1 - t].Active?
  {
    if ps == [] || Last(ps).Active? then 0 else 1 + Trailing(Init(ps))
  }

  /** There has been an active push since the last utterance end. */
  predicate InSpeech(ps: seq<Push>, h: nat) {
    Trailing(ps) < |ps| - LastEnd(ps, h)
  }

  lemma EndsNowByTrailing(ps: seq<Push>, h: nat)
    ensures EndsNow(ps, h) <==> Trailing(ps) == h && h < |ps|
  {
  }

  /** Outside speech, more than enough passive pushes have followed the last end. */
  lemma SilenceIsLong(ps: seq<Push>, h: nat)
    requires !InSpeech(ps, h) && LastEnd(ps, h) > 0
    ensures Trailing(ps) >= h
  {
    EndsNowByTrailing(ps[..LastEnd(ps, h)], h);
  }

  // ---- how one more push changes the history functions ----

  lemma AfterActive(ps: seq<Push>, pcm: seq<Byte>, h: nat)
    requires h > 0
    ensures var qs := ps + [Active(pcm)];
            && Trailing(qs) == 0 && InSpeech(qs, h)
            && LastEnd(qs, h) == LastEnd(ps, h)
            && Current(qs, h) == Current(ps, h) + pcm
            && Completed(qs, h) == Completed(ps, h)
  {
    var qs := ps + [Active(pcm)];
    InitLast(ps, Active(pcm));
    var e := LastEnd(ps, h);
    InitLast(ps[e..], Active(pcm));
    assert qs[e..] == ps[e..] + [Active(pcm)];
  }

  lemma AfterPassive(ps: seq<Push>, h: nat)
    requires h > 0
    ensures var qs := ps + [Passive];
            && Trailing(qs) == Trailing(ps) + 1
            && (EndsNow(qs, h) <==> InSpeech(ps, h) && Trailing(ps) + 1 == h)
            && (if EndsNow(qs, h)
                then !InSpeech(qs, h) && Current(qs, h) == [] && Completed(qs, h) == Completed(ps, h) + [Current(ps, h)]
                else InSpeech(qs, h) == InSpeech(ps, h) && Current(qs, h) == Current(ps, h) && Completed(qs, h) == Completed(ps, h))
  {
    var qs := ps + [Passive];
    InitLast(ps, Passive);
    EndsNowByTrailing(qs, h);
    var e := LastEnd(ps, h);
    InitLast(ps[e..], Passive);
    assert qs[e..] == ps[e..] + [Passive];
    if !InSpeech(ps, h) && e > 0 {
      SilenceIsLong(ps, h);
    }
    if InSpeech(ps, h) && Trailing(ps) + 1 == h {
      assert h < |qs|;
    }
  }

  /** Utterances leave nothing out: the finished ones followed by the open one are all the
      active PCM there was, in order. */
  lemma {:induction false} UtterancesCover(ps: seq<Push>, h: nat)
    requires h > 0
    ensures Concat(Completed(ps, h)) + Current(ps, h) == ActivePcm(ps)
  {
    if ps != [] {
      UtterancesCover(Init(ps), h);
      CoverNext(Init(ps), Last(ps), ps, h);
    }
  }

  lemma CoverNext(ps: seq<Push>, p: Push, qs: seq<Push>, h: nat)
    requires h > 0 && qs == ps + [p]
    requires Concat(Completed(ps, h)) + Current(ps, h) == ActivePcm(ps)
    ensures Concat(Completed(qs, h)) + Current(qs, h) == ActivePcm(qs)
  {
    match p {
      case Active(pcm) => CoverActive(ps, pcm, qs, h);
      case Passive => CoverPassive(ps, qs, h);
    }
  }

  lemma CoverActive(ps: seq<Push>, pcm: seq<Byte>, qs: seq<Push>, h: nat)
    requires h > 0 && qs == ps + [Active(pcm)]
    requires Concat(Completed(ps, h)) + Current(ps, h) == ActivePcm(ps)
    ensures Concat(Completed(qs, h)) + Current(qs, h) == ActivePcm(qs)
  {
    AfterActive(ps, pcm, h);
    ActivePcmNext(ps, Active(pcm));
    Regroup(Concat(Completed(ps, h)), Current(ps, h), pcm);
  }

  lemma CoverPassive(ps: seq<Push>, qs: seq<Push>, h: nat)
    requires h > 0 && qs == ps + [Passive]
    requires Concat(Completed(ps, h)) + Current(ps, h) == ActivePcm(ps)
    ensures Concat(Completed(qs, h)) + Current(qs, h) == ActivePcm(qs)
  {
    AfterPassive(ps, h);
    ActivePcmNext(ps, Passive);
    ConcatAppend(Completed(ps, h), Current(ps, h));
  }

  lemma ActivePcmNext(ps: seq<Push>, p: Push)
    ensures ActivePcm(ps + [p]) == ActivePcm(ps) + (if p.Active? then p.pcm else [])
  {
    InitLast(ps, p);
  }
}
