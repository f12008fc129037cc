/** The review-to-capture rule of the capture extractor: which audit entries
    become captures and with what suggested fix. Reading the audit log and
    handing each capture to the capture store are left to the caller; the
    entries arrive already parsed. */
module CaptureExtract {
  import opened Wrappers
  import opened JsonValues
  import opened Text

  /** The capture handed to the capture store. */
  datatype Capture = Capture(documentId: Json, promptHash: Json, actor: Json, suggestedFix: Json, source: string)

  /** What one audit entry gives: nothing, a capture, or an exception that
      ends the extraction. */
  datatype Step = Skip | Emit(capture: Capture) | Raised

  const SOURCE := "review-extract"
  const REJECT_FIX := "Reviewer rejected \U{2014} needs correction"
  const MARKER := "correction:"

  /** Python's `a or b`. */
  function Or(a: Json, b: Json): (r: Json)
    ensures Truthy(a) ==> r == a
    ensures !Truthy(a) ==> r == b
  {
    if Truthy(a) then a else b
  }

  /** The `correction:` test: the comment, lower-cased and stripped, starts
      with the marker. */
  predicate AsksCorrection(comment: string)
  {
    StartsWith(Strip(Lower(comment)), MARKER)
  }

  /** `comment.split("correction:", 1)[1].strip()`, or `None` when the
      lower-case marker does not occur and the index raises. */
  function SplitFix(comment: string): (r: Option<string>)
    ensures r.Some? <==> Contains(comment, MARKER)
  {
    match Find(comment, MARKER)
    case None => None
    case Some(i) => Some(Strip(comment[i + |MARKER|..]))
  }

  /** The text after the first marker found case-insensitively, stripped:
      what the `correction:` rule evidently means. */
  function CaselessFix(comment: string): (r: Option<string>)
    ensures r.Some? <==> Contains(Lower(comment), MARKER)
  {
    match Find(Lower(comment), MARKER)
    case None => None
    case Some(i) => Some(Strip(comment[i + |MARKER|..]))
  }

  /** The capture for an entry whose rule gave `fix`. */
  function CaptureOf(f: map<string, Json>, fix: Json): (c: Capture)
    ensures c.source == SOURCE
    ensures Truthy(Get(f, "document_id", JNull)) ==> c.documentId == Get(f, "document_id", JNull)
    ensures !Truthy(Get(f, "document_id", JNull)) && Truthy(Get(f, "document", JNull))
            ==> c.documentId == Get(f, "document", JNull)
    ensures !Truthy(Get(f, "document_id", JNull)) && !Truthy(Get(f, "document", JNull)) ==> c.documentId == JNull
    ensures c.actor == Or(Get(f, "actor", JNull), JStr("reviewer"))
    ensures c.suggestedFix == fix && c.promptHash == Get(f, "prompt_hash", JNull)
  {
    var doc := Or(Get(f, "document_id", JNull), Or(Get(f, "document", JNull), JNull));
    Capture(doc, Get(f, "prompt_hash", JNull), Or(Get(f, "actor", JNull), JStr("reviewer")), fix, SOURCE)
  }

  /** The comment as the extractor reads it: `entry.get("comment", "") or ""`. */
  function CommentOf(f: map<string, Json>): (r: Json)
    ensures Truthy(r) || r == JStr("")
  {
    Or(Get(f, "comment", JStr("")), JStr(""))
  }

  /** One entry, as the extractor is written: the fix of a non-reject entry
      comes from splitting the comment at the first lower-case marker. */
  function ClassifyAsWritten(entry: Json): (r: Step)
    ensures !entry.JObj? ==> r == Raised
  {
    if !entry.JObj? then Raised
    else
      var f := entry.fields;
      var comment := CommentOf(f);
      if !Truthy(Get(f, "decision", JNull)) then Skip
      else if Get(f, "decision", JNull) == JStr("reject") then Emit(CaptureOf(f, Or(comment, JStr(REJECT_FIX))))
      else if !comment.JStr? then Raised
      else if !AsksCorrection(comment.s) then Skip
      else match SplitFix(comment.s)
        case None => Raised
        case Some(fix) => Emit(CaptureOf(f, JStr(fix)))
  }

  /** One entry, with the marker located case-insensitively. */
  function Classify(entry: Json): (r: Step)
    ensures !entry.JObj? ==> r == Raised
  {
    if !entry.JObj? then Raised
    else
      var f := entry.fields;
      var comment := CommentOf(f);
      if !Truthy(Get(f, "decision", JNull)) then Skip
      else if Get(f, "decision", JNull) == JStr("reject") then Emit(CaptureOf(f, Or(comment, JStr(REJECT_FIX))))
      else if !comment.JStr? then Raised
      else if !AsksCorrection(comment.s) then Skip
      else
        CorrectionFound(comment.s);
        Emit(CaptureOf(f, JStr(CaselessFix(comment.s).value)))
  }

  lemma PrefixOfPrefix(l: string, t: string, m: string)
    requires |t| <= |l| && t == l[..|t|] && StartsWith(t, m)
    ensures StartsWith(l, m)
  {
    assert l[..|m|] == t[..|m|];
  }

  lemma PrefixOfSuffix(x: string, k: nat, m: string)
    requires k <= |x| && StartsWith(x[k..], m)
    ensures OccursAt(x, m, k)
  {
    assert x[k..][..|m|] == x[k..k + |m|];
  }

  /** A comment that asks for a correction contains the marker once lower-cased. */
  lemma CorrectionFound(comment: string)
    requires AsksCorrection(comment)
    ensures Contains(Lower(comment), MARKER)
  {
    StrippedPrefixOccurs(Lower(comment), MARKER);
  }

  /** What a stripped string starts with occurs in the original. */
  lemma StrippedPrefixOccurs(x: string, m: string)
    requires StartsWith(Strip(x), m)
    ensures Contains(x, m)
  {
    var l := StripLeft(x);
    PrefixOfPrefix(l, StripRight(l), m);
    PrefixOfSuffix(x, |x| - |l|, m);
  }

  /** Entries without a truthy decision never become captures. */
  lemma NoDecisionSkipped(f: map<string, Json>)
    requires !Truthy(Get(f, "decision", JNull))
    ensures Classify(JObj(f)) == Skip && ClassifyAsWritten(JObj(f)) == Skip
  {
  }

  /** A rejection always becomes a capture: its fix is the comment, or the
      stock text when the comment is empty. */
  lemma RejectCaptured(f: map<string, Json>)
    requires Get(f, "decision", JNull) == JStr("reject")
    ensures Classify(JObj(f)).Emit?
    ensures var c := Classify(JObj(f)).capture;
      c.suggestedFix == (if Truthy(CommentOf(f)) then CommentOf(f) else JStr(REJECT_FIX))
      && c.source == SOURCE
      && c.actor == Or(Get(f, "actor", JNull), JStr("reviewer"))
  {
  }

  /** A non-reject decision with a string comment becomes a capture exactly
      when the comment asks for a correction, with the text after the
      marker as its fix. */
  lemma CorrectionCaptured(f: map<string, Json>)
    requires Truthy(Get(f, "decision", JNull)) && Get(f, "decision", JNull) != JStr("reject")
    requires CommentOf(f).JStr?
    ensures !AsksCorrection(CommentOf(f).s) ==> Classify(JObj(f)) == Skip
    ensures AsksCorrection(CommentOf(f).s) ==>
      CaselessFix(CommentOf(f).s).Some?
      && Classify(JObj(f)) == Emit(CaptureOf(f, JStr(CaselessFix(CommentOf(f).s).value)))
  {
    if AsksCorrection(CommentOf(f).s) {
      CorrectionFound(CommentOf(f).s);
    }
  }

  /** As written, such an entry is skipped the same way, but when the
      comment asks for a correction without a lower-case marker it raises. */
  lemma CorrectionAsWritten(f: map<string, Json>)
    requires Truthy(Get(f, "decision", JNull)) && Get(f, "decision", JNull) != JStr("reject")
    requires CommentOf(f).JStr?
    ensures !AsksCorrection(CommentOf(f).s) ==> ClassifyAsWritten(JObj(f)) == Skip
    ensures AsksCorrection(CommentOf(f).s) && !Contains(CommentOf(f).s, MARKER) ==> ClassifyAsWritten(JObj(f)) == Raised
    ensures AsksCorrection(CommentOf(f).s) && Contains(CommentOf(f).s, MARKER) ==>
      ClassifyAsWritten(JObj(f)) == Emit(CaptureOf(f, JStr(SplitFix(CommentOf(f).s).value)))
  {
  }

  /** On a comment without capitals the two rules agree. */
  lemma LowercaseAgrees(entry: Json)
    requires entry.JObj? && CommentOf(entry.fields).JStr?
    requires forall c <- CommentOf(entry.fields).s :: !IsUpper(c)
    ensures Classify(entry) == ClassifyAsWritten(entry)
  {
    var f := entry.fields;
    var s := CommentOf(f).s;
    assert Lower(s) == s by {
      forall i | 0 <= i < |s|
        ensures Lower(s)[i] == s[i]
      {
        assert s[i] in s;
      }
    }
    FixesAgree(s);
    if Truthy(Get(f, "decision", JNull)) && Get(f, "decision", JNull) != JStr("reject") && AsksCorrection(s) {
      CorrectionFound(s);
      assert Classify(entry) == Emit(CaptureOf(f, JStr(CaselessFix(s).value)));
      assert ClassifyAsWritten(entry) == Emit(CaptureOf(f, JStr(SplitFix(s).value)));
    }
  }

  lemma FixesAgree(s: string)
    requires Lower(s) == s
    ensures CaselessFix(s) == SplitFix(s)
  {
  }

  const CAPITALISED := "Correction: fix"

  lemma CapitalisedLowered()
    ensures Lower(CAPITALISED) == "correction: fix"
  {
    var t := "correction: fix";
    forall i | 0 <= i < |CAPITALISED|
      ensures Lower(CAPITALISED)[i] == t[i]
    {
      if i > 0 {
        assert CAPITALISED[i] == t[i] && !IsUpper(CAPITALISED[i]);
      }
    }
  }

  lemma CapitalisedAsksCorrection()
    ensures AsksCorrection(CAPITALISED)
  {
    var t := "correction: fix";
    CapitalisedLowered();
    assert StripLeft(t) == t;
    assert StripRight(t) == t;
  }

  lemma CapitalisedHasNoMarker()
    ensures !Contains(CAPITALISED, MARKER)
  {
    forall i | 0 <= i <= |CAPITALISED| - |MARKER|
      ensures !OccursAt(CAPITALISED, MARKER, i)
    {
      assert CAPITALISED[i..i + |MARKER|][0] == CAPITALISED[i] != 'c';
    }
  }

  /** As written, a capitalised marker passes the lower-cased test but the
      split finds no lower-case marker, so the entry raises; the
      case-insensitive rule turns it into a capture. */
  lemma CapitalisedCorrectionRaises()
    ensures var f := map["decision" := JStr("approve"), "comment" := JStr(CAPITALISED)];
      ClassifyAsWritten(JObj(f)) == Raised && Classify(JObj(f)).Emit?
      && Classify(JObj(f)).capture.suggestedFix == JStr("fix")
  {
    var f := map["decision" := JStr("approve"), "comment" := JStr(CAPITALISED)];
    assert CommentOf(f) == JStr(CAPITALISED);
    assert Get(f, "decision", JNull) == JStr("approve");
    CapitalisedAsksCorrection();
    CorrectionCaptured(f);
    CorrectionAsWritten(f);
    CapitalisedHasNoMarker();
    CapitalisedFix();
  }

  lemma CapitalisedFix()
    ensures CaselessFix(CAPITALISED) == Some("fix")
  {
    CapitalisedLowered();
    var t := "correction: fix";
    assert OccursAt(t, MARKER, 0) by {
      assert t[0..|MARKER|] == MARKER;
    }
    assert Find(t, MARKER) == Some(0);
    TrailingFix();
  }

  lemma TrailingFix()
    ensures Strip(CAPITALISED[|MARKER|..]) == "fix"
  {
    var rest := CAPITALISED[|MARKER|..];
    assert rest == " fix" by {
      assert |rest| == 4;
      forall i | 0 <= i < 4
        ensures rest[i] == " fix"[i]
      {
        assert rest[i] == CAPITALISED[i + 11];
      }
    }
    StripSpaceFix();
  }

  lemma StripSpaceFix()
    ensures Strip(" fix") == "fix"
  {
    var t := "fix";
    assert !IsSpace(t[0]) && !IsSpace(t[|t| - 1]);
    assert StripLeft(t) == t;
    assert StripRight(t) == t;
    var s := " fix";
    assert IsSpace(s[0]) && s[1..] == t;
    assert StripLeft(s) == StripLeft(t);
  }

  /** A run of the extractor: the captures handed over, and whether an
      entry raised and ended it. */
  datatype Run = Run(captures: seq<Capture>, raised: bool)

  /** The run of the extractor's loop with entry step `step`: the captures
      for `entries`, in order, up to the first entry that raises. */
  function Extract(step: Json -> Step, entries: seq<Json>): (r: Run)
    ensures |r.captures| <= |entries|
  {
    if entries == [] then Run([], false)
    else
      var before := Extract(step, entries[..|entries| - 1]);
      if before.raised then before
      else match step(entries[|entries| - 1])
        case Skip => before
        case Raised => Run(before.captures, true)
        case Emit(c) => Run(before.captures + [c], false)
  }

  /** The extractor as written: each entry through `ClassifyAsWritten`. */
  function ExtractAsWrittenFor(entries: seq<Json>): (r: Run)
    ensures |r.captures| <= |entries|
    ensures forall c <- r.captures :: c.source == SOURCE
  {
    CapturesFromEntries(ClassifyAsWritten, entries);
    Extract(ClassifyAsWritten, entries)
  }

  /** The corrected extractor: each entry through `Classify`. */
  function ExtractFor(entries: seq<Json>): (r: Run)
    ensures |r.captures| <= |entries|
    ensures forall c <- r.captures :: c.source == SOURCE
  {
    CapturesFromEntries(Classify, entries);
    Extract(Classify, entries)
  }

  /** The captures the entries emit, in log order, whatever raises. */
  function Emitted(step: Json -> Step, entries: seq<Json>): seq<Capture>
  {
    if entries == [] then []
    else Emitted(step, entries[..|entries| - 1])
         + (match step(entries[|entries| - 1]) case Emit(c) => [c] case _ => [])
  }

  /** Every capture comes from an entry of the log. */
  lemma {:induction false} CapturesFromEntries(step: Json -> Step, entries: seq<Json>)
    ensures forall c <- Extract(step, entries).captures :: exists e <- entries :: step(e) == Emit(c)
  {
    if entries != [] {
      var init := entries[..|entries| - 1];
      CapturesFromEntries(step, init);
      assert forall e <- init :: e in entries;
    }
  }

  /** An entry that raises ends the run: nothing after it is captured. */
  lemma {:induction false} RaiseEndsRun(step: Json -> Step, entries: seq<Json>, i: nat)
    requires i < |entries| && step(entries[i]) == Raised
    ensures Extract(step, entries).raised
    ensures Extract(step, entries).captures == Extract(step, entries[..i + 1]).captures
  {
    if i + 1 < |entries| {
      var init := entries[..|entries| - 1];
      assert init[i] == entries[i];
      RaiseEndsRun(step, init, i);
      assert init[..i + 1] == entries[..i + 1];
    } else {
      assert entries[..i + 1] == entries;
    }
  }

  /** A log in which no entry raises is handed over whole: every capture
      its entries emit, in order. */
  lemma {:induction false} NoRaiseHandsOverAll(step: Json -> Step, entries: seq<Json>)
    requires forall j | 0 <= j < |entries| :: step(entries[j]) != Raised
    ensures Extract(step, entries) == Run(Emitted(step, entries), false)
  {
    if entries != [] {
      var init := entries[..|entries| - 1];
      assert forall j | 0 <= j < |init| :: init[j] == entries[j];
      NoRaiseHandsOverAll(step, init);
    }
  }

  /** The run hands over exactly the captures emitted before the first
      entry that raises, in order, and reports whether one raised. */
  lemma RunUpToFirstRaise(step: Json -> Step, entries: seq<Json>, i: nat)
    requires i <= |entries| && forall j | 0 <= j < i :: step(entries[j]) != Raised
    requires i < |entries| ==> step(entries[i]) == Raised
    ensures Extract(step, entries) == Run(Emitted(step, entries[..i]), i < |entries|)
  {
    var pre := entries[..i];
    assert forall j | 0 <= j < |pre| :: pre[j] == entries[j];
    NoRaiseHandsOverAll(step, pre);
    if i < |entries| {
      var upto := entries[..i + 1];
      assert upto[..|upto| - 1] == pre;
      assert upto[|upto| - 1] == entries[i];
      assert Extract(step, upto) == Run(Emitted(step, pre), true);
      RaiseEndsRun(step, entries, i);
    } else {
      assert pre == entries;
    }
  }

  /** The one-entry log of the finding: as written the run raises and hands
      over nothing; corrected, it hands over the capture with fix "fix". */
  lemma CapitalisedRunsDiffer()
    ensures var e := JObj(map["decision" := JStr("approve"), "comment" := JStr(CAPITALISED)]);
      ExtractAsWrittenFor([e]) == Run([], true)
      && |ExtractFor([e]).captures| == 1 && !ExtractFor([e]).raised
      && ExtractFor([e]).captures[0].suggestedFix == JStr("fix")
  {
    var e := JObj(map["decision" := JStr("approve"), "comment" := JStr(CAPITALISED)]);
    CapitalisedCorrectionRaises();
    var c := Classify(e).capture;
    assert [e][..0] == [];
    assert Extract(ClassifyAsWritten, [e]) == Run([], true);
    assert Extract(Classify, [e]) == Run([c], false);
  }

  /** The extractor's loop over the audit entries, with entry step `step`. */
  method ExtractCaptures(step: Json -> Step, entries: seq<Json>) returns (r: Run)
    ensures r == Extract(step, entries)
  {
    var captures: seq<Capture> := [];
    var i := 0;
    while i < |entries|
      invariant i <= |entries|
      invariant Extract(step, entries[..i]) == Run(captures, false)
    {
      assert entries[..i + 1][..i] == entries[..i];
      match step(entries[i]) {
        case Skip =>
        case Raised =>
          RaiseEndsRun(step, entries, i);
          return Run(captures, true);
        case Emit(c) =>
          captures := captures + [c];
      }
      i := i + 1;
    }
    assert entries[..i] == entries;
    r := Run(captures, false);
  }
}
