/** The lineage chain when rollbacks are cut off between their file writes.  Once a template
    has a finished revision, rollback is the only operation that writes to it until it is
    deleted: fork, import and install leave an existing template alone. */
module TemplateCrashes {
  import opened Wrappers
  import opened Templates

  /** A rollback to revision `n` that stops after `writes` file writes; three is all. */
  datatype Attempt = Attempt(n: int, now: string, writes: nat)

  /** The rollback finds its revision and the current definition. */
  predicate Accepted(c: Codec, d: TemplateDir, name: string, a: Attempt) {
    GetRevision(c, d, a.n).Some? && Load(c, d, name).Some?
  }

  function RestoredBy(c: Codec, d: TemplateDir, name: string, a: Attempt): Template
    requires Accepted(c, d, name, a)
  {
    Restored(c, Rev(c, d, a.n), Load(c, d, name).value, a.now)
  }

  function Try(c: Codec, d: TemplateDir, name: string, a: Attempt): TemplateDir {
    if Accepted(c, d, name, a) then Written(c, d, RestoredBy(c, d, name, a), a.now, a.writes) else d
  }

  function TryAll(c: Codec, d: TemplateDir, name: string, attempts: seq<Attempt>): TemplateDir {
    if attempts == [] then d else Try(c, TryAll(c, d, name, attempts[..|attempts| - 1]), name, attempts[|attempts| - 1])
  }

  /** An attempt that is not cut off is the rollback of the store. */
  lemma WholeAttemptIsRollback(c: Codec, d: TemplateDir, name: string, a: Attempt)
    requires a.writes == 3
    ensures var r := Rollback(c, map[name := d], name, a.n, a.now);
      Try(c, d, name, a) == if r.Ok? then r.value[name] else d
  {
  }

  function Newest(c: Codec, d: TemplateDir): Template
    requires GetRevision(c, d, Count(c, d)).Some?
  {
    Rev(c, d, Count(c, d))
  }

  /** Each revision descends from the one before it. */
  ghost predicate Links(c: Codec, d: TemplateDir)
    requires AllRevisionsThere(c, d)
  {
    forall k :: 2 <= k <= Count(c, d) ==> Descends(c, Rev(c, d, k - 1), Rev(c, d, k))
  }

  /** template.yaml does not hold the newest revision. */
  predicate Ahead(c: Codec, d: TemplateDir)
    requires GetRevision(c, d, Count(c, d)).Some?
  {
    d.current != Some(c.yaml(Newest(c, d)))
  }

  /** What every attempt keeps: a sound history, named definitions, and a current definition
      that is the newest revision or of a later generation. */
  ghost predicate Kept(c: Codec, d: TemplateDir, name: string) {
    && HistoryOk(c, d) && Count(c, d) >= 1 && AllRevisionsThere(c, d)
    && (forall k :: k in d.revs && GetRevision(c, d, k).Some? ==> Rev(c, d, k).name != "")
    && Load(c, d, name).Some? && d.current == Some(c.yaml(Load(c, d, name).value))
    && (Ahead(c, d) ==> Generation(Load(c, d, name).value) > Generation(Newest(c, d)))
  }

  lemma CurrentIsNewest(c: Codec, d: TemplateDir, name: string)
    requires Faithful(c) && Kept(c, d, name) && !Ahead(c, d)
    ensures Load(c, d, name).value == Newest(c, d)
  {
    var t := Newest(c, d);
    assert Count(c, d) in d.revs && t.name != "";
    assert c.unyaml(c.yaml(t)) == Some(t);
  }

  lemma RestoredParts(c: Codec, d: TemplateDir, name: string, a: Attempt)
    requires Kept(c, d, name) && Accepted(c, d, name, a)
    ensures var t, cur := RestoredBy(c, d, name, a), Load(c, d, name).value;
      && t.name != "" && Generation(t) == Generation(cur) + 1
      && t.lineage == Some(Lineage(Generation(cur) + 1, ContentDigest(c, cur), ContentDigest(c, t)))
  {
    RestoredFacts(c, Rev(c, d, a.n), Load(c, d, name).value, a.now);
  }

  lemma LoadsWhatWasWritten(c: Codec, d: TemplateDir, name: string, t: Template)
    requires Faithful(c) && d.current == Some(c.yaml(t)) && t.name != ""
    ensures Load(c, d, name) == Some(t)
  {
    assert c.unyaml(c.yaml(t)) == Some(t);
  }

  /** The indexed revisions are the same ones. */
  ghost predicate SameRevisions(c: Codec, d: TemplateDir, d': TemplateDir) {
    Count(c, d') == Count(c, d) && forall k :: 1 <= k <= Count(c, d) ==> GetRevision(c, d', k) == GetRevision(c, d, k)
  }

  lemma SameLinks(c: Codec, d: TemplateDir, d': TemplateDir)
    requires AllRevisionsThere(c, d) && Count(c, d) >= 1 && SameRevisions(c, d, d')
    ensures AllRevisionsThere(c, d') && Newest(c, d') == Newest(c, d)
    ensures Links(c, d') <==> Links(c, d)
  {
    forall k | 1 <= k <= Count(c, d) ensures GetRevision(c, d', k).Some? && Rev(c, d', k) == Rev(c, d, k) { }
    if Links(c, d') {
      forall k | 2 <= k <= Count(c, d) ensures Descends(c, Rev(c, d, k - 1), Rev(c, d, k)) {
        assert Descends(c, Rev(c, d', k - 1), Rev(c, d', k));
      }
    }
    if Links(c, d) {
      forall k | 2 <= k <= Count(c, d') ensures Descends(c, Rev(c, d', k - 1), Rev(c, d', k)) {
        assert Descends(c, Rev(c, d, k - 1), Rev(c, d, k));
      }
    }
  }

  lemma CutOffFiles(c: Codec, d: TemplateDir, t: Template, time: string, writes: nat)
    requires Faithful(c) && HistoryOk(c, d) && AllRevisionsThere(c, d) && 1 <= writes <= 2 && t.name != ""
    requires forall k :: k in d.revs && GetRevision(c, d, k).Some? ==> Rev(c, d, k).name != ""
    ensures var d' := Written(c, d, t, time, writes);
      && HistoryOk(c, d') && SameRevisions(c, d, d') && d'.current == Some(c.yaml(t))
      && forall k :: k in d'.revs && GetRevision(c, d', k).Some? ==> Rev(c, d', k).name != ""
  {
    var d' := Written(c, d, t, time, writes);
    WriteKeepsHistory(c, d, t, time, writes);
    IndexedFilesExist(c, d);
    if writes == 2 { NamesKept(c, d, d', NextNumber(c, d), t); }
  }

  /** A template of a later generation is not the newest revision. */
  lemma LaterIsAhead(c: Codec, d: TemplateDir, t: Template)
    requires Faithful(c) && GetRevision(c, d, Count(c, d)).Some?
    requires d.current == Some(c.yaml(t)) && Generation(t) != Generation(Newest(c, d))
    ensures Ahead(c, d)
  {
    assert c.unyaml(c.yaml(t)) == Some(t);
    assert c.unyaml(c.yaml(Newest(c, d))) == Some(Newest(c, d));
  }

  lemma NeverBehind(c: Codec, d: TemplateDir, name: string)
    requires Faithful(c) && Kept(c, d, name)
    ensures Generation(Load(c, d, name).value) >= Generation(Newest(c, d))
  {
    if !Ahead(c, d) { CurrentIsNewest(c, d, name); }
  }

  /** Cut off after the first or the second write: the history stands, and the current
      definition is a generation ahead of it. */
  lemma CutOff(c: Codec, d: TemplateDir, name: string, a: Attempt)
    requires Faithful(c) && Kept(c, d, name) && Accepted(c, d, name, a) && 1 <= a.writes <= 2
    ensures var d' := Try(c, d, name, a);
      && Kept(c, d', name) && Ahead(c, d') && (Links(c, d') <==> Links(c, d))
  {
    var t, d' := RestoredBy(c, d, name, a), Try(c, d, name, a);
    RestoredParts(c, d, name, a);
    NeverBehind(c, d, name);
    CutOffFiles(c, d, t, a.now, a.writes);
    SameLinks(c, d, d');
    LoadsWhatWasWritten(c, d', name, t);
    LaterIsAhead(c, d', t);
  }

  lemma FinishedFiles(c: Codec, d: TemplateDir, t: Template, time: string, writes: nat)
    requires Faithful(c) && HistoryOk(c, d) && AllRevisionsThere(c, d) && writes >= 3 && t.name != ""
    requires forall k :: k in d.revs && GetRevision(c, d, k).Some? ==> Rev(c, d, k).name != ""
    ensures var d' := Written(c, d, t, time, writes); var m := Count(c, d);
      && HistoryOk(c, d') && d'.current == Some(c.yaml(t)) && OneMore(c, d, d', t)
      && forall k :: k in d'.revs && GetRevision(c, d', k).Some? ==> Rev(c, d', k).name != ""
  {
    var d' := Written(c, d, t, time, writes);
    WriteAppends(c, d, t, time);
    assert d' == Written(c, d, t, time, 3);
    IndexedFilesExist(c, d);
    NamesKept(c, d, d', NextNumber(c, d), t);
  }

  /** The indexed revisions of `d`, and `t` after them. */
  ghost predicate OneMore(c: Codec, d: TemplateDir, d': TemplateDir, t: Template) {
    var m := Count(c, d);
    && Count(c, d') == m + 1 && GetRevision(c, d', m + 1) == Some(t)
    && forall k :: 1 <= k <= m ==> GetRevision(c, d', k) == GetRevision(c, d, k)
  }

  /** The new link holds exactly when the current definition was the newest revision. */
  lemma NewLinkIff(c: Codec, d: TemplateDir, name: string, a: Attempt)
    requires Faithful(c) && Kept(c, d, name) && Accepted(c, d, name, a)
    ensures Descends(c, Newest(c, d), RestoredBy(c, d, name, a)) <==> !Ahead(c, d)
  {
    RestoredParts(c, d, name, a);
    if !Ahead(c, d) { CurrentIsNewest(c, d, name); }
  }

  /** Finished: one more link, which holds exactly when the current definition was the
      newest revision. */
  lemma Finished(c: Codec, d: TemplateDir, name: string, a: Attempt)
    requires Faithful(c) && Kept(c, d, name) && Accepted(c, d, name, a) && a.writes >= 3
    ensures var d' := Try(c, d, name, a);
      && Kept(c, d', name) && !Ahead(c, d') && (Links(c, d') <==> Links(c, d) && !Ahead(c, d))
  {
    var t, d' := RestoredBy(c, d, name, a), Try(c, d, name, a);
    RestoredParts(c, d, name, a);
    FinishedFiles(c, d, t, a.now, a.writes);
    LoadsWhatWasWritten(c, d', name, t);
    NewLinkIff(c, d, name, a);
    LinksOneMore(c, d, d', t);
  }

  lemma NamesKept(c: Codec, d: TemplateDir, d': TemplateDir, n: int, t: Template)
    requires Faithful(c) && t.name != "" && d'.revs == d.revs[n := c.yaml(t)]
    requires forall k :: k in d.revs && GetRevision(c, d, k).Some? ==> Rev(c, d, k).name != ""
    ensures forall k :: k in d'.revs && GetRevision(c, d', k).Some? ==> Rev(c, d', k).name != ""
  {
    assert c.unyaml(c.yaml(t)) == Some(t);
    forall k | k in d'.revs && GetRevision(c, d', k).Some? ensures Rev(c, d', k).name != "" {
      if k != n { assert GetRevision(c, d', k) == GetRevision(c, d, k); }
    }
  }

  lemma LinksOneMore(c: Codec, d: TemplateDir, d': TemplateDir, t: Template)
    requires Count(c, d) >= 1 && AllRevisionsThere(c, d) && OneMore(c, d, d', t)
    ensures AllRevisionsThere(c, d') && Newest(c, d') == t
    ensures Links(c, d') <==> Links(c, d) && Descends(c, Newest(c, d), t)
  {
    var m := Count(c, d);
    forall k | 1 <= k <= m + 1
      ensures GetRevision(c, d', k).Some? && Rev(c, d', k) == if k <= m then Rev(c, d, k) else t
    {
    }
    if Links(c, d') {
      assert Descends(c, Rev(c, d', m), Rev(c, d', m + 1));
      forall k | 2 <= k <= m ensures Descends(c, Rev(c, d, k - 1), Rev(c, d, k)) {
        assert Descends(c, Rev(c, d', k - 1), Rev(c, d', k));
      }
    }
    if Links(c, d) && Descends(c, Newest(c, d), t) {
      forall k | 2 <= k <= m + 1 ensures Descends(c, Rev(c, d', k - 1), Rev(c, d', k)) {
        if k <= m { assert Descends(c, Rev(c, d, k - 1), Rev(c, d, k)); }
      }
    }
  }

  lemma NothingWritten(c: Codec, d: TemplateDir, name: string, a: Attempt)
    requires !Accepted(c, d, name, a) || a.writes == 0
    ensures Try(c, d, name, a) == d
  {
  }

  /** The last attempt that wrote anything was cut off. */
  predicate CutLast(c: Codec, d: TemplateDir, name: string, attempts: seq<Attempt>) {
    attempts != []
    && var front, a := attempts[..|attempts| - 1], attempts[|attempts| - 1];
       if Accepted(c, TryAll(c, d, name, front), name, a) && a.writes > 0 then a.writes < 3
       else CutLast(c, d, name, front)
  }

  /** No finished rollback comes right after one that was cut off between its writes. */
  predicate NoneAfterCut(c: Codec, d: TemplateDir, name: string, attempts: seq<Attempt>) {
    attempts == []
    || (var front, a := attempts[..|attempts| - 1], attempts[|attempts| - 1];
        && NoneAfterCut(c, d, name, front)
        && (Accepted(c, TryAll(c, d, name, front), name, a) && a.writes >= 3 ==> !CutLast(c, d, name, front)))
  }

  /** From a sound template, after any rollbacks cut off anywhere: the chain holds if and only
      if no finished rollback came right after one cut off between its writes. */
  lemma {:induction false} ChainHoldsIff(c: Codec, d: TemplateDir, name: string, attempts: seq<Attempt>)
    requires Faithful(c) && Chained(c, d) && NoStrays(c, d)
    ensures var end := TryAll(c, d, name, attempts);
      && Kept(c, end, name)
      && (Ahead(c, end) <==> CutLast(c, d, name, attempts))
      && (Links(c, end) <==> NoneAfterCut(c, d, name, attempts))
  {
    if attempts == [] {
      ChainedLoads(c, d, name);
    } else {
      var front, a := attempts[..|attempts| - 1], attempts[|attempts| - 1];
      var before := TryAll(c, d, name, front);
      ChainHoldsIff(c, d, name, front);
      if !Accepted(c, before, name, a) || a.writes == 0 {
        NothingWritten(c, before, name, a);
      } else if a.writes < 3 {
        CutOff(c, before, name, a);
      } else {
        Finished(c, before, name, a);
      }
    }
  }
}
