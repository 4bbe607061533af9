/** The pure parts of the execution ledger: one agent's history is a
    sequence of execution records in submission order. Reading it filters
    by principal or looks up the first record with a given id; submitting
    appends to it. */
module Ledger {
  import opened Types
  import Access

  /** `agent_executions.get(agent_id, [])`: the history of one agent, empty
      when nothing was ever submitted for it. */
  function RunsOf(ledger: map<string, seq<Execution>>, agentId: string): seq<Execution> {
    if agentId in ledger then ledger[agentId] else []
  }

  /** Every record is filed under its own agent, is completed, and carries
      an id from `ids`. */
  ghost predicate WellFiled(ledger: map<string, seq<Execution>>, ids: set<string>) {
    forall k :: k in ledger ==>
      forall e :: e in ledger[k] ==> e.agentId == k && e.status == CompletedStatus && e.id in ids
  }

  /** Appending a completed record filed under its own agent, with a newly
      issued id, keeps the ledger well filed. */
  lemma AppendWellFiled(ledger: map<string, seq<Execution>>, ids: set<string>, e: Execution)
    requires WellFiled(ledger, ids)
    requires e.status == CompletedStatus
    ensures WellFiled(ledger[e.agentId := RunsOf(ledger, e.agentId) + [e]], ids + {e.id})
  {
  }

  /** The records of `runs` submitted by `user`, in submission order. */
  function OwnedBy(runs: seq<Execution>, user: string): (r: seq<Execution>)
    ensures |r| <= |runs|
  {
    if runs == [] then []
    else
      var last := runs[|runs| - 1];
      OwnedBy(runs[..|runs| - 1], user) + (if last.userId == user then [last] else [])
  }

  /** What a principal may list: everything for an admin, otherwise only the
      principal's own records. */
  function VisibleTo(runs: seq<Execution>, p: Principal): seq<Execution> {
    if Access.IsAdmin(p) then runs else OwnedBy(runs, p.userId)
  }

  /** Exactly the records with the given owner are kept. */
  lemma {:induction false} OwnedByMembers(runs: seq<Execution>, user: string)
    ensures forall e :: e in OwnedBy(runs, user) <==> e in runs && e.userId == user
  {
    if runs != [] {
      var init := runs[..|runs| - 1];
      OwnedByMembers(init, user);
      assert runs == init + [runs[|runs| - 1]];
    }
  }

  /** Ownership filtering keeps submission order: it distributes over concatenation. */
  lemma {:induction false} OwnedByConcat(xs: seq<Execution>, ys: seq<Execution>, user: string)
    ensures OwnedBy(xs + ys, user) == OwnedBy(xs, user) + OwnedBy(ys, user)
    decreases |ys|
  {
    if ys == [] {
      assert xs + ys == xs;
    } else {
      var init := ys[..|ys| - 1];
      OwnedByConcat(xs, init, user);
      assert (xs + ys)[..|xs + ys| - 1] == xs + init;
    }
  }

  /** The listing shows an admin every record, and anyone else exactly the
      records they submitted; nothing listed is hidden from the caller. */
  lemma VisibleToSpec(runs: seq<Execution>, p: Principal)
    ensures Access.IsAdmin(p) ==> VisibleTo(runs, p) == runs
    ensures forall e :: e in VisibleTo(runs, p) <==> e in runs && Access.MayView(p, e)
  {
    OwnedByMembers(runs, p.userId);
  }

  /** A newly appended record joins the end of the listing of every principal
      that may see it, and changes no other listing. */
  lemma VisibleAfterAppend(runs: seq<Execution>, e: Execution, p: Principal)
    ensures VisibleTo(runs + [e], p) == VisibleTo(runs, p) + (if Access.MayView(p, e) then [e] else [])
  {
  }

  /** `runs[k]` is the first record of `runs` whose id is `id`. */
  predicate FirstWithId(runs: seq<Execution>, id: string, k: int) {
    0 <= k < |runs| && runs[k].id == id && forall j :: 0 <= j < k ==> runs[j].id != id
  }

  /** `next(e for e in runs if e["id"] == id)`: the first record with that id. */
  function FindById(runs: seq<Execution>, id: string): (r: Option<Execution>)
    ensures r.None? <==> forall e :: e in runs ==> e.id != id
    ensures r.Some? ==> exists k :: FirstWithId(runs, id, k) && runs[k] == r.value
  {
    if runs == [] then None
    else if runs[0].id == id then
      assert FirstWithId(runs, id, 0);
      Some(runs[0])
    else
      var rest := FindById(runs[1..], id);
      assert forall e :: e in runs ==> e == runs[0] || e in runs[1..];
      if rest.Some? then
        var k :| FirstWithId(runs[1..], id, k) && runs[1..][k] == rest.value;
        assert FirstWithId(runs, id, k + 1);
        rest
      else rest
  }

  /** A record whose id no earlier record carries is found again after it is appended. */
  lemma FindAppended(runs: seq<Execution>, e: Execution)
    requires forall x :: x in runs ==> x.id != e.id
    ensures FindById(runs + [e], e.id) == Some(e)
  {
  }

  /** Appending never changes which record an existing id finds. */
  lemma {:induction false} FindStable(runs: seq<Execution>, e: Execution, id: string)
    requires exists x :: x in runs && x.id == id
    ensures FindById(runs + [e], id) == FindById(runs, id)
  {
    if runs[0].id != id {
      var x :| x in runs && x.id == id;
      assert x in runs[1..];
      assert (runs + [e])[1..] == runs[1..] + [e];
      FindStable(runs[1..], e, id);
    }
  }

  const MessagePrefix: string := "Simulated response from agent '"
  const OutputPrefix: string := "This is a simulated response for input: "

  /** The simulated invocation result: a message naming the agent and an
      output echoing the request input. `renderedInput` is Python's text
      form of the input document, which this model does not compute. */
  function SimulatedResult(agentName: string, renderedInput: string): (r: JsonObject)
    ensures r.fields.Keys == {"message", "data"}
    ensures r.fields["message"].JStr? && r.fields["data"].JObj?
    ensures r.fields["data"].fields.Keys == {"generated_output"}
    ensures r.fields["data"].fields["generated_output"].JStr?
  {
    JObj(map[
      "message" := JStr(MessagePrefix + agentName + "'"),
      "data" := JObj(map["generated_output" := JStr(OutputPrefix + renderedInput)])
    ])
  }

  /** The result tells which agent produced it and which input it echoes:
      different names or different inputs give different results. */
  lemma SimulatedResultInjective(a1: string, i1: string, a2: string, i2: string)
    ensures SimulatedResult(a1, i1) == SimulatedResult(a2, i2) <==> a1 == a2 && i1 == i2
  {
    if SimulatedResult(a1, i1) == SimulatedResult(a2, i2) {
      var m1, m2 := MessagePrefix + a1 + "'", MessagePrefix + a2 + "'";
      var o1, o2 := OutputPrefix + i1, OutputPrefix + i2;
      assert SimulatedResult(a1, i1).fields["message"] == JStr(m1);
      assert SimulatedResult(a2, i2).fields["message"] == JStr(m2);
      assert m1 == m2;
      assert a1 == m1[|MessagePrefix|..|m1| - 1];
      assert a2 == m2[|MessagePrefix|..|m2| - 1];
      assert SimulatedResult(a1, i1).fields["data"].fields["generated_output"] == JStr(o1);
      assert SimulatedResult(a2, i2).fields["data"].fields["generated_output"] == JStr(o2);
      assert i1 == o1[|OutputPrefix|..];
      assert i2 == o2[|OutputPrefix|..];
    }
  }
}
