/** The guard against repeated tool calls: mcp-host/loop_guard.py, with the in-process store. */
module LoopGuard {
  const WINDOW: nat := 8
  const THRESHOLD: nat := 3

  type Session = string

  /** A tool's name joined with the digest of its arguments. */
  type Signature = string

  /** The texts for the model, which depend on the tool's name and the count alone, are left out. */
  datatype LoopCheck = LoopCheck(loop: bool, occurrences: nat)

  type Store = map<string, seq<Signature>>

  function Key(session: Session): string {
    "loopguard:" + session
  }

  lemma KeyInjective(a: Session, b: Session)
    requires Key(a) == Key(b)
    ensures a == b
  {
    assert Key(a)[10..] == a && Key(b)[10..] == b;
  }

  function Recent(history: seq<Signature>): seq<Signature> {
    if |history| <= WINDOW then history else history[|history| - WINDOW..]
  }

  function Occurrences(history: seq<Signature>, sig: Signature): nat {
    if history == [] then 0
    else Occurrences(history[..|history| - 1], sig) + if history[|history| - 1] == sig then 1 else 0
  }

  function Listed(store: Store, session: Session): seq<Signature> {
    if Key(session) in store then store[Key(session)] else []
  }

  function Verdict(history: seq<Signature>, sig: Signature): LoopCheck {
    LoopCheck(Occurrences(history, sig) >= THRESHOLD, Occurrences(history, sig))
  }

  class Guard {
    var fallback: Store

    constructor ()
      ensures fallback == map[]
    {
      fallback := map[];
    }

    method Record(session: Session, sig: Signature) returns (history: seq<Signature>)
      modifies this
      ensures history == Recent(Listed(old(fallback), session) + [sig])
      ensures fallback == old(fallback)[Key(session) := history]
    {
      var arr := if Key(session) in fallback then fallback[Key(session)] else [];
      arr := arr + [sig];
      if |arr| > WINDOW {
        arr := arr[|arr| - WINDOW..];
      }
      fallback := fallback[Key(session) := arr];
      history := arr;
    }

    method Check(session: Session, sig: Signature) returns (answer: LoopCheck)
      modifies this
      ensures (fallback, answer) == Checking(old(fallback), session, sig)
    {
      var history := Record(session, sig);
      var occurrences := 0;
      for i := 0 to |history|
        invariant occurrences == Occurrences(history[..i], sig)
      {
        assert history[..i + 1][..i] == history[..i];
        if history[i] == sig {
          occurrences := occurrences + 1;
        }
      }
      assert history[..|history|] == history;
      answer := LoopCheck(occurrences >= THRESHOLD, occurrences);
    }

    method Reset(session: Session)
      modifies this
      ensures fallback == old(fallback) - {Key(session)}
    {
      fallback := fallback - {Key(session)};
    }
  }

  // ---------- Runs ----------

  function Checking(store: Store, session: Session, sig: Signature): (Store, LoopCheck) {
    var history := Recent(Listed(store, session) + [sig]);
    (store[Key(session) := history], Verdict(history, sig))
  }

  datatype Event = Checked(session: Session, sig: Signature) | Cleared(session: Session)

  function After(events: seq<Event>): Store {
    if events == [] then map[]
    else
      var store := After(events[..|events| - 1]);
      match events[|events| - 1]
      case Checked(session, sig) => Checking(store, session, sig).0
      case Cleared(session) => store - {Key(session)}
  }

  datatype Answered = Answered(sig: Signature, answer: LoopCheck)

  /** What one session has checked since it was last reset, with the answers it got. */
  function Log(events: seq<Event>, session: Session): seq<Answered> {
    if events == [] then []
    else
      var before, last := events[..|events| - 1], events[|events| - 1];
      if last.session != session then Log(before, session)
      else if last.Cleared? then []
      else Log(before, session) + [Answered(last.sig, Checking(After(before), session, last.sig).1)]
  }

  function Signatures(log: seq<Answered>): (r: seq<Signature>)
    ensures |r| == |log| && forall i | 0 <= i < |r| :: r[i] == log[i].sig
  {
    seq(|log|, i requires 0 <= i < |log| => log[i].sig)
  }

  /** In every reachable store each session's list is the last eight signatures that the session
      itself has checked since its own last reset; other sessions do not show in it. */
  lemma {:induction false} ListIsRecent(events: seq<Event>, session: Session)
    ensures Listed(After(events), session) == Recent(Signatures(Log(events, session)))
  {
    if events != [] {
      var before, last := events[..|events| - 1], events[|events| - 1];
      ListIsRecent(before, session);
      if last.session != session {
        if Key(last.session) == Key(session) {
          KeyInjective(last.session, session);
        }
      } else if last.Checked? {
        RecentSnoc(Signatures(Log(before, session)), last.sig);
        assert Signatures(Log(events, session)) == Signatures(Log(before, session)) + [last.sig];
      }
    }
  }

  lemma RecentSnoc(history: seq<Signature>, sig: Signature)
    ensures Recent(Recent(history) + [sig]) == Recent(history + [sig])
  {
  }

  /** Every answer in a log was given on the signatures that the log held up to it. */
  lemma {:induction false} AnswersOnLog(events: seq<Event>, session: Session, k: nat)
    requires k < |Log(events, session)|
    ensures var log := Log(events, session);
            log[k].answer == Verdict(Recent(Signatures(log[..k + 1])), log[k].sig)
  {
    var before, last := events[..|events| - 1], events[|events| - 1];
    var log, log' := Log(events, session), Log(before, session);
    if last.session != session || k < |log'| {
      AnswersOnLog(before, session, k);
      assert log[..k + 1] == log'[..k + 1];
    } else {
      ListIsRecent(before, session);
      RecentSnoc(Signatures(log'), last.sig);
      assert Signatures(log[..k + 1]) == Signatures(log') + [last.sig];
    }
  }

  // ---------- When a call is blocked ----------

  lemma {:induction false} OccurrencesConcat(a: seq<Signature>, b: seq<Signature>, sig: Signature)
    ensures Occurrences(a + b, sig) == Occurrences(a, sig) + Occurrences(b, sig)
  {
    if b == [] {
      assert a + b == a;
    } else {
      var b', x := b[..|b| - 1], b[|b| - 1];
      OccurrencesConcat(a, b', sig);
      assert (a + b)[..|a + b| - 1] == a + b';
    }
  }

  lemma {:induction false} OccursAt(history: seq<Signature>, sig: Signature) returns (i: nat)
    requires Occurrences(history, sig) >= 1
    ensures i < |history| && history[i] == sig && Occurrences(history[..i], sig) == Occurrences(history, sig) - 1
  {
    if history[|history| - 1] == sig {
      i := |history| - 1;
    } else {
      i := OccursAt(history[..|history| - 1], sig);
      assert history[..|history| - 1][..i] == history[..i];
    }
  }

  lemma OccursPair(history: seq<Signature>, sig: Signature) returns (i: nat, j: nat)
    requires Occurrences(history, sig) >= 2
    ensures i < j < |history| && history[i] == sig && history[j] == sig
  {
    hide Occurrences;
    j := OccursAt(history, sig);
    i := OccursAt(history[..j], sig);
  }

  lemma {:induction false} OccursTwice(history: seq<Signature>, sig: Signature, i: nat, j: nat)
    requires i < j < |history| && history[i] == sig && history[j] == sig
    ensures Occurrences(history, sig) >= 2
  {
    var n := |history| - 1;
    if j < n {
      OccursTwice(history[..n], sig, i, j);
    } else {
      assert history[..n] == (history[..i] + [sig]) + history[i + 1..n];
      OccurrencesConcat(history[..i] + [sig], history[i + 1..n], sig);
      OccurrencesConcat(history[..i], [sig], sig);
    }
  }

  /** Two earlier entries at `i` and `j`, both among the last eight ending at `k`, are alike. */
  predicate Repeated(log: seq<Answered>, i: int, j: int, k: int) {
    0 <= i < j < k < |log| && k - 8 < i && log[i].sig == log[k].sig && log[j].sig == log[k].sig
  }

  /** The signatures of the seven calls before the one at `k`, or of as many as there are. */
  function Earlier(log: seq<Answered>, k: nat): (r: seq<Signature>)
    requires k < |log|
    ensures |r| == if k < 8 then k else 7
    ensures forall i | 0 <= i < |r| :: r[i] == log[k - |r| + i].sig
  {
    Signatures(log[if k < 8 then 0 else k - 7..k])
  }

  lemma RecentIsEarlier(log: seq<Answered>, k: nat)
    requires k < |log|
    ensures Recent(Signatures(log[..k + 1])) == Earlier(log, k) + [log[k].sig]
  {
  }

  lemma AnswerByEarlier(events: seq<Event>, session: Session, k: nat)
    requires k < |Log(events, session)|
    ensures var log := Log(events, session);
            log[k].answer.loop <==> Occurrences(Earlier(log, k), log[k].sig) >= 2
  {
    AnswersOnLog(events, session, k);
    hide Log, After, Recent, Earlier;
    var log := Log(events, session);
    RecentIsEarlier(log, k);
    assert (Earlier(log, k) + [log[k].sig])[..|Earlier(log, k)|] == Earlier(log, k);
  }

  lemma BlockedRepeats(log: seq<Answered>, k: nat) returns (i: nat, j: nat)
    requires k < |log| && Occurrences(Earlier(log, k), log[k].sig) >= 2
    ensures Repeated(log, i, j, k)
  {
    var earlier, sig := Earlier(log, k), log[k].sig;
    hide Earlier;
    i, j := OccursPair(earlier, sig);
    hide Occurrences;
    i, j := k - |earlier| + i, k - |earlier| + j;
  }

  lemma RepeatsBlocked(log: seq<Answered>, k: nat, i: int, j: int)
    requires Repeated(log, i, j, k)
    ensures Occurrences(Earlier(log, k), log[k].sig) >= 2
  {
    var earlier := Earlier(log, k);
    hide Earlier, Occurrences;
    OccursTwice(earlier, log[k].sig, i + |earlier| - k, j + |earlier| - k);
  }

  /** A call is blocked exactly when two of the seven calls before it in the session, since the
      reset, had its signature, whether those were let through or blocked themselves. */
  lemma BlockedExactly(events: seq<Event>, session: Session, k: nat)
    requires k < |Log(events, session)|
    ensures Log(events, session)[k].answer.loop <==> exists i, j :: Repeated(Log(events, session), i, j, k)
  {
    AnswerByEarlier(events, session, k);
    hide Log, Repeated, Earlier, Occurrences;
    var log := Log(events, session);
    if log[k].answer.loop {
      var i, j := BlockedRepeats(log, k);
    }
    if i, j :| Repeated(log, i, j, k) {
      RepeatsBlocked(log, k, i, j);
    }
  }

  /** How many calls with `sig` were let through, from position `lo` up to but not including `hi`. */
  function LetThrough(log: seq<Answered>, sig: Signature, lo: nat, hi: nat): nat
    requires lo <= hi <= |log|
  {
    if lo == hi then 0
    else LetThrough(log, sig, lo, hi - 1) + if log[hi - 1].sig == sig && !log[hi - 1].answer.loop then 1 else 0
  }

  lemma SignaturesNext(log: seq<Answered>, lo: nat, hi: nat)
    requires lo <= hi < |log|
    ensures Signatures(log[lo..hi + 1]) == Signatures(log[lo..hi]) + [log[hi].sig]
  {
  }

  lemma OccurrencesSnoc(history: seq<Signature>, x: Signature, sig: Signature)
    ensures Occurrences(history + [x], sig) == Occurrences(history, sig) + if x == sig then 1 else 0
  {
    assert (history + [x])[..|history|] == history;
  }

  lemma LetThroughNext(log: seq<Answered>, sig: Signature, lo: nat, hi: nat)
    requires lo <= hi < |log|
    ensures LetThrough(log, sig, lo, hi + 1) ==
            LetThrough(log, sig, lo, hi) + if log[hi].sig == sig && !log[hi].answer.loop then 1 else 0
  {
  }

  lemma {:induction false} LetThroughOccur(log: seq<Answered>, sig: Signature, lo: nat, hi: nat)
    requires lo <= hi <= |log|
    ensures LetThrough(log, sig, lo, hi) <= Occurrences(Signatures(log[lo..hi]), sig)
    decreases hi - lo
  {
    hide Signatures, Occurrences;
    if lo < hi {
      hide LetThrough;
      LetThroughNext(log, sig, lo, hi - 1);
      LetThroughOccur(log, sig, lo, hi - 1);
      SignaturesNext(log, lo, hi - 1);
      OccurrencesSnoc(Signatures(log[lo..hi - 1]), log[hi - 1].sig, sig);
    }
  }

  /** The last eight signatures end in those from `lo` on, if these are at most eight. */
  lemma TailOfRecent(log: seq<Answered>, lo: nat, hi: nat, sig: Signature)
    requires lo <= hi <= |log| && hi - lo <= WINDOW
    ensures Occurrences(Signatures(log[lo..hi]), sig) <= Occurrences(Recent(Signatures(log[..hi])), sig)
  {
    var recent, tail := Recent(Signatures(log[..hi])), Signatures(log[lo..hi]);
    var head := recent[..|recent| - |tail|];
    assert recent == head + tail;
    hide Recent, Signatures;
    OccurrencesConcat(head, tail, sig);
  }

  /** The last of at most eight calls, if let through, is at most the second. */
  lemma LastLetThrough(log: seq<Answered>, sig: Signature, lo: nat, hi: nat)
    requires lo < hi <= |log| && hi - lo <= WINDOW && log[hi - 1].sig == sig && !log[hi - 1].answer.loop
    requires log[hi - 1].answer == Verdict(Recent(Signatures(log[..hi])), sig)
    ensures LetThrough(log, sig, lo, hi) <= THRESHOLD - 1
  {
    hide Signatures, Occurrences, Recent, LetThrough;
    LetThroughOccur(log, sig, lo, hi);
    TailOfRecent(log, lo, hi, sig);
  }

  /** Any eight consecutive checks of a session let the same signature through at most twice. */
  lemma {:induction false} AtMostTwiceInEight(events: seq<Event>, session: Session, sig: Signature, lo: nat, hi: nat)
    requires lo <= hi <= |Log(events, session)| && hi - lo <= 8
    ensures LetThrough(Log(events, session), sig, lo, hi) <= 2
    decreases hi - lo
  {
    hide Log, Signatures, Recent, Verdict;
    if lo < hi {
      var last := Log(events, session)[hi - 1];
      if last.sig == sig && !last.answer.loop {
        AnswersOnLog(events, session, hi - 1);
        LastLetThrough(Log(events, session), sig, lo, hi);
      } else {
        AtMostTwiceInEight(events, session, sig, lo, hi - 1);
      }
    }
  }

  lemma CheckSnoc(events: seq<Event>, session: Session, sig: Signature)
    ensures var log := Log(events, session);
            Log(events + [Checked(session, sig)], session) ==
            log + [Answered(sig, Verdict(Recent(Signatures(log) + [sig]), sig))]
  {
    assert (events + [Checked(session, sig)])[..|events|] == events;
    ListIsRecent(events, session);
    RecentSnoc(Signatures(Log(events, session)), sig);
  }

  lemma VerdictOnRepeats(sig: Signature)
    ensures Verdict(Recent([sig]), sig) == LoopCheck(false, 1)
    ensures Verdict(Recent([sig, sig]), sig) == LoopCheck(false, 2)
    ensures Verdict(Recent([sig, sig, sig]), sig) == LoopCheck(true, 3)
  {
    assert Occurrences([sig], sig) == 1;
    assert [sig, sig][..1] == [sig] && Occurrences([sig, sig], sig) == 2;
    assert [sig, sig, sig][..2] == [sig, sig] && Occurrences([sig, sig, sig], sig) == 3;
  }

  /** The bound is reached by any signature in any fresh session, and the third call is blocked. */
  lemma ThirdIsBlocked(events: seq<Event>, session: Session, sig: Signature)
    requires Log(events, session) == []
    ensures Log(events + [Checked(session, sig)] + [Checked(session, sig)] + [Checked(session, sig)], session) ==
            [Answered(sig, LoopCheck(false, 1)), Answered(sig, LoopCheck(false, 2)), Answered(sig, LoopCheck(true, 3))]
  {
    hide Log, Verdict, Recent;
    VerdictOnRepeats(sig);
    var once := events + [Checked(session, sig)];
    var twice := once + [Checked(session, sig)];
    var first, second := Answered(sig, LoopCheck(false, 1)), Answered(sig, LoopCheck(false, 2));
    CheckSnoc(events, session, sig);
    assert Signatures([]) + [sig] == [sig] && [] + [first] == [first];
    assert Log(once, session) == [first];
    CheckSnoc(once, session, sig);
    assert Signatures([first]) + [sig] == [sig, sig] && [first] + [second] == [first, second];
    assert Log(twice, session) == [first, second];
    CheckSnoc(twice, session, sig);
    assert Signatures([first, second]) + [sig] == [sig, sig, sig];
  }
}
