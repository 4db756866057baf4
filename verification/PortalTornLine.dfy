/**
 A run of the portal that leaves a torn line behind: the first submission fails
 while it appends its consent, and so does the truncation that should undo it; the
 second one is accepted, yet no reader of the log finds its record
 (scripts/ap_portal_server.py).
 */
module PortalTornLine {
  import opened Wrappers
  import opened PyText
  import opened Sets
  import opened PortalFiles
  import opened PortalRuns

  /** Some steps of thread 0, which now stands at `pc`. */
  ghost predicate At(enc: Encoder, run: seq<World>, pc: Pc) {
    IsPath(enc, run, 0) && PcOf(EndOf(run), 0) == pc
  }

  /** What the steps below leave alone. */
  predicate SameGate(w: World, w': World) {
    w'.sync == w.sync && w'.trusted == w.trusted && w'.startup == w.startup && w'.authorized == w.authorized
  }

  lemma {:induction false} OneMacRendering(mac: Mac) returns (text: string)
    ensures IsRendering(text, {mac})
  {
    var lines := [mac];
    assert Elements(lines) == {mac};
    assert IsSortedListing(lines, {mac});
    text := JoinLines(lines, '\n');
  }

  /** A submission for a MAC not yet let in, up to the written allowlist. */
  lemma {:induction false} SubmitUpToFile(enc: Encoder, run: seq<World>, c: Consent) returns (longer: seq<World>)
    requires At(enc, run, Idle) && EndOf(run).lock.None? && IsNormalMac(c.mac)
    requires EndOf(run).authorized == EndOf(run).trusted == {} && EndOf(run).allowlist.None?
    ensures At(enc, longer, FileWritten(c, {}, false, LogSize(EndOf(run).consents)))
    ensures SameGate(EndOf(run), EndOf(longer)) && EndOf(longer).consents == EndOf(run).consents && longer[0] == run[0]
    ensures EndOf(longer).lock == Some(0) && EndOf(longer).undoFailed == EndOf(run).undoFailed
  {
    var w := EndOf(run);
    var text := OneMacRendering(c.mac);
    var w1 := Goto(w, 0, Begin(c)).(lock := Some(0));
    longer := Extend(enc, run, w1, 0, true);
    var widened := if w.sync then Lets(w1) + {c.mac} else w.firewall;
    var w2 := Goto(w1, 0, Synced(c, {}, false)).(firewall := widened);
    assert BeginMove(w1, w2, 0, c, true);
    longer := Extend(enc, longer, w2, 0, true);
    var w3 := Goto(w2, 0, Positioned(c, {}, false, LogSize(w.consents)));
    longer := Extend(enc, longer, w3, 0, true);
    var w4 := Goto(w3, 0, FileWritten(c, {}, false, LogSize(w.consents))).(allowlist := Some(text));
    assert {} + {c.mac} == {c.mac};
    assert WriteStep(w3.allowlist, w4.allowlist, text, true) && WriteMove(w3, w4, 0, PcOf(w3, 0), true);
    longer := Extend(enc, longer, w4, 0, true);
  }

  /** The append fails halfway, and so does the truncation. */
  lemma {:induction false} TearLine(enc: Encoder, run: seq<World>, c: Consent) returns (longer: seq<World>)
    requires At(enc, run, FileWritten(c, {}, false, None)) && enc(c) != ""
    requires EndOf(run).consents.None? && EndOf(run).lock == Some(0)
    ensures At(enc, longer, UndoFile({}, false)) && SameGate(EndOf(run), EndOf(longer)) && longer[0] == run[0]
    ensures EndOf(longer).lock == Some(0) && EndOf(longer).consents == Some(enc(c)[..1])
  {
    var w := EndOf(run);
    var w1 := Goto(w, 0, UndoLog({}, false, None)).(consents := Some(enc(c)[..1]));
    assert enc(c)[..1] <= LineOf(enc, c) && "" + LineOf(enc, c) == LineOf(enc, c);
    longer := Extend(enc, run, w1, 0, false);
    var w2 := Goto(w1, 0, UndoFile({}, false)).(undoFailed := true);
    longer := Extend(enc, longer, w2, 0, false);
  }

  /** The rest of the undo works. */
  lemma {:induction false} UndoRest(enc: Encoder, run: seq<World>) returns (longer: seq<World>)
    requires At(enc, run, UndoFile({}, false)) && EndOf(run).lock == Some(0)
    ensures At(enc, longer, Idle) && SameGate(EndOf(run), EndOf(longer)) && longer[0] == run[0]
    ensures EndOf(longer).lock.None? && EndOf(longer).allowlist.None? && EndOf(longer).consents == EndOf(run).consents
  {
    var w1 := Goto(EndOf(run), 0, UndoFirewall({})).(allowlist := None);
    longer := Extend(enc, run, w1, 0, true);
    var closed := if w1.sync then {} + w1.trusted else w1.firewall;
    var w2 := Goto(w1, 0, Done).(firewall := closed);
    assert UnsyncMove(w1, w2, 0, {}, true);
    longer := Extend(enc, longer, w2, 0, true);
    var w3 := w2.(pcs := w2.pcs - {0}, lock := None);
    longer := Extend(enc, longer, w3, 0, true);
  }

  /** Everything from the consent line on succeeds. */
  lemma {:induction false} Accept(enc: Encoder, run: seq<World>, c: Consent, pos: Option<nat>, line: string)
    returns (longer: seq<World>)
    requires At(enc, run, FileWritten(c, {}, false, pos)) && EndOf(run).lock == Some(0)
    ensures At(enc, longer, Idle) && EndOf(longer).lock.None? && EndOf(longer).authorized == {c.mac}
    ensures EndOf(longer).consents == Some(Content(EndOf(run).consents) + LineOf(enc, c)) && longer[0] == run[0]
    ensures EndOf(longer).committed == Content(EndOf(longer).consents)
  {
    var w := EndOf(run);
    var w1 := Goto(w, 0, Logged(c, {}, false, pos)).(consents := Some(Content(w.consents) + LineOf(enc, c)));
    longer := Extend(enc, run, w1, 0, true);
    var w2 := Goto(w1, 0, Recorded(c, {}))
              .(activity := Some(Content(w1.activity) + line), committed := Content(w1.consents));
    assert AppendStep(w1.activity, w2.activity, line, true);
    longer := Extend(enc, longer, w2, 0, true);
    var w3 := Goto(w2, 0, Done).(authorized := {} + {c.mac});
    longer := Extend(enc, longer, w3, 0, true);
    var w4 := w3.(pcs := w3.pcs - {0}, lock := None);
    longer := Extend(enc, longer, w4, 0, true);
  }

  /** The log after that: the record is there byte for byte, and no line is that record. */
  lemma {:induction false} TornRecord(enc: Encoder, c: Consent)
    requires EncodesLines(enc) && enc(c) != ""
    ensures var log := enc(c)[..1] + LineOf(enc, c); HasRecord(enc, log, c.mac) && enc(c) !in StrLines(log)
  {
    var torn := enc(c)[..1];
    assert NoBreaks(torn, STR_BREAKS) by { assert forall i :: 0 <= i < |torn| ==> torn[i] == enc(c)[i]; }
    TornLineSwallowsNextRecord(enc, "", torn, c);
    assert "" + torn + LineOf(enc, c) == torn + LineOf(enc, c);
    CommittedLine(enc, torn, c);
  }

  /**
   From an empty portal there is such a run, with or without the firewall, and
   whatever the activity line: the lock is free, the MAC is let in and its consent
   committed, yet the record is no line of the log.
   */
  lemma {:induction false} CommittedButUnreadable(enc: Encoder, c: Consent, sync: bool, line: string)
    returns (run: seq<World>)
    requires EncodesLines(enc) && enc(c) != "" && IsNormalMac(c.mac)
    ensures IsRun(enc, run) && run[0].cleanStart && run[0].sync == sync && c.mac !in run[0].authorized
    ensures var w := EndOf(run);
            && w.lock.None? && c.mac in w.authorized && w.committed == Content(w.consents)
            && HasRecord(enc, w.committed, c.mac) && enc(c) !in StrLines(Content(w.consents))
  {
    var empty := World(sync, {}, None, None, None, {}, {}, None, map[], {}, true, "", false);
    run := [empty];
    assert IsPath(enc, run, 0) && Init(run[0]);
    run := SubmitUpToFile(enc, run, c);
    run := TearLine(enc, run, c);
    run := UndoRest(enc, run);
    run := SubmitUpToFile(enc, run, c);
    run := Accept(enc, run, c, Some(1), line);
    TornRecord(enc, c);
    PathIsRun(enc, run, 0);
  }
}
