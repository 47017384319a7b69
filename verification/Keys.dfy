/** The identities that make consequences exactly-once: consequence keys (internal/replicated/fsm.go,
    seqKey and enqueueJobs) and generated operation IDs (internal/replicated/controller.go, Propose). */
module Keys {
  import opened Base
  import opened Text
  import opened Tables

  const KINDS_OF_KEY := ["event", "audit", "job"]

  lemma ColonFreeDigits(n: nat)
    ensures ':' !in Itoa(n) && '-' !in Itoa(n)
  {
  }

  /** A consequence key names one operation and one ordinal, whatever the operation ID contains. */
  lemma SeqKeyInjective(kind: string, a: string, i: Option<nat>, b: string, j: Option<nat>)
    requires kind in KINDS_OF_KEY
    requires SeqKey(a, kind, i) == SeqKey(b, kind, j)
    ensures a == b && i == j
  {
    var whole := SeqKey(a, kind, i);
    if i.Some? && j.Some? {
      ColonFreeDigits(i.value);
      ColonFreeDigits(j.value);
      assert whole == ("op:" + a + ":" + kind) + [':'] + Itoa(i.value);
      assert whole == ("op:" + b + ":" + kind) + [':'] + Itoa(j.value);
      LastPartUnique("op:" + a + ":" + kind, "op:" + b + ":" + kind, Itoa(i.value), Itoa(j.value), ':');
      ItoaInjective(i.value, j.value);
    } else {
      LastCharacter(kind, a, i);
      LastCharacter(kind, b, j);
    }
    assert "op:" + a + ":" + kind == "op:" + b + ":" + kind;
    HeadUnique("op:" + a + ":", "op:" + b + ":", kind);
    HeadUnique("op:" + a, "op:" + b, ":");
    TailUnique("op:", a, b);
  }

  lemma LastCharacter(kind: string, a: string, i: Option<nat>)
    requires kind in KINDS_OF_KEY
    ensures SeqKey(a, kind, i) != ""
    ensures var s := SeqKey(a, kind, i); i.Some? <==> '0' <= s[|s| - 1] <= '9'
  {
  }

  /** A job key names its operation, its ordinal and its target when target IDs are free of colons. */
  lemma JobKeyIdentifies(a: string, i: Option<nat>, x: string, b: string, j: Option<nat>, y: string)
    requires ':' !in x && ':' !in y
    requires JobKey(JobBase(a, i), x) == JobKey(JobBase(b, j), y)
    ensures a == b && i == j && x == y
  {
    LastPartUnique(JobBase(a, i), JobBase(b, j), x, y, ':');
    SeqKeyInjective("job", a, i, b, j);
  }

  /** With a colon in a target ID two operations claim the same job key. */
  lemma ColonInTargetCollides(a: string, x: string, y: string)
    ensures JobKey(JobBase(a, None), x + ":job:" + y) == JobKey(JobBase(a + ":job:" + x, None), y)
  {
    assert JobKey(JobBase(a, None), x + ":job:" + y) == "op:" + a + ":job:" + x + ":job:" + y;
    assert JobKey(JobBase(a + ":job:" + x, None), y) == "op:" + a + ":job:" + x + ":job:" + y;
  }

  /** The operation ID a proposer generates. */
  function GeneratedId(node: string, epoch: nat, seq_: nat): string {
    "trestle-" + node + "-" + Itoa(epoch) + "-" + Itoa(seq_)
  }

  /** Different nodes, process epochs or counters never generate the same operation ID. */
  lemma GeneratedIdInjective(n1: string, e1: nat, s1: nat, n2: string, e2: nat, s2: nat)
    requires GeneratedId(n1, e1, s1) == GeneratedId(n2, e2, s2)
    ensures n1 == n2 && e1 == e2 && s1 == s2
  {
    ColonFreeDigits(e1); ColonFreeDigits(e2); ColonFreeDigits(s1); ColonFreeDigits(s2);
    var a, b := "trestle-" + n1 + "-" + Itoa(e1), "trestle-" + n2 + "-" + Itoa(e2);
    assert GeneratedId(n1, e1, s1) == a + ['-'] + Itoa(s1);
    assert GeneratedId(n2, e2, s2) == b + ['-'] + Itoa(s2);
    LastPartUnique(a, b, Itoa(s1), Itoa(s2), '-');
    ItoaInjective(s1, s2);
    assert a == ("trestle-" + n1) + ['-'] + Itoa(e1);
    assert b == ("trestle-" + n2) + ['-'] + Itoa(e2);
    LastPartUnique("trestle-" + n1, "trestle-" + n2, Itoa(e1), Itoa(e2), '-');
    ItoaInjective(e1, e2);
    TailUnique("trestle-", n1, n2);
  }

  /** The proposer: one counter per process. */
  class Controller {
    const node: string
    const epoch: nat
    var seq_: nat

    constructor (node: string, epoch: nat)
      ensures this.node == node && this.epoch == epoch && seq_ == 0
    {
      this.node := node;
      this.epoch := epoch;
      seq_ := 0;
    }

    /** The ID of the next proposal: the request's own when it carries one, else a generated one that
        no earlier proposal of this process used. */
    method NextId(requestId: string) returns (id: string)
      modifies this
      ensures requestId != "" ==> id == requestId && seq_ == old(seq_)
      ensures requestId == "" ==> id == GeneratedId(node, epoch, seq_) && seq_ == old(seq_) + 1
      ensures requestId == "" ==> forall k :: 0 <= k <= old(seq_) ==> id != GeneratedId(node, epoch, k)
    {
      if requestId != "" { return requestId; }
      seq_ := seq_ + 1;
      id := GeneratedId(node, epoch, seq_);
      forall k | 0 <= k <= old(seq_)
        ensures id != GeneratedId(node, epoch, k)
      {
        if id == GeneratedId(node, epoch, k) { GeneratedIdInjective(node, epoch, seq_, node, epoch, k); }
      }
    }
  }
}
