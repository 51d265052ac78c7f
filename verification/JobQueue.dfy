/** The queue of due jobs (job.c): a singly linked list that is appended to, without duplicates, and
    drained as a whole. */
module JobQueue {
  import opened Common
  import opened CronDatabase

  /** Entry number `line` of a user's crontab: the pair of pointers that identifies a job. */
  datatype Job = Job(line: nat, u: User)

  class JobNode {
    var next: JobNode?
    const job: Job

    constructor (job: Job)
      ensures this.job == job && next == null
    {
      this.job, next := job, null;
    }
  }

  function Queued(q: seq<Job>, j: Job): seq<Job> {
    if j in q then q else q + [j]
  }

  function QueuedAll(q: seq<Job>, js: seq<Job>): seq<Job>
    decreases |js|
  {
    if js == [] then q else QueuedAll(Queued(q, js[0]), js[1..])
  }

  /** What `do_command` starts, in order; what becomes of a command is not modelled. */
  class Shell {
    var started: seq<Job>

    method DoCommand(j: Job)
      modifies this
      ensures started == old(started) + [j]
    {
      started := started + [j];
    }
  }

  class Queue {
    var jhead: JobNode?
    var jtail: JobNode?
    ghost var nodes: seq<JobNode>
    ghost var repr: set<JobNode>

    constructor ()
      ensures Valid() && Jobs() == [] && repr == {}
    {
      jhead, jtail := null, null;
      nodes, repr := [], {};
    }

    ghost predicate Valid()
      reads this, repr
    {
      && (forall i :: 0 <= i < |nodes| ==> nodes[i] in repr)
      && (if nodes == [] then jhead == null && jtail == null
          else jhead == nodes[0] && jtail == nodes[|nodes| - 1] && jtail.next == null)
      && (forall i {:trigger nodes[i].next} :: 0 <= i < |nodes| - 1 ==> nodes[i].next == nodes[i + 1])
      && Distinct(nodes)
    }

    ghost function Jobs(): (jobs: seq<Job>)
      reads this
      ensures |jobs| == |nodes| && forall i :: 0 <= i < |jobs| ==> jobs[i] == nodes[i].job
    {
      var ns := nodes;
      seq(|ns|, i requires 0 <= i < |ns| => ns[i].job)
    }

    /** Whether the job is on the queue. */
    method Has(j: Job) returns (found: bool)
      requires Valid()
      ensures found <==> j in Jobs()
    {
      var node := jhead;
      ghost var k := 0;
      while node != null
        invariant 0 <= k <= |nodes| && node == (if k < |nodes| then nodes[k] else null)
        invariant forall i :: 0 <= i < k ==> Jobs()[i] != j
        decreases |nodes| - k
      {
        if node.job == j {
          assert Jobs()[k] == j;
          return true;
        }
        node := node.next;
        k := k + 1;
      }
      return false;
    }

    method JobAdd(j: Job)
      requires Valid()
      modifies this, repr
      ensures Valid() && Jobs() == Queued(old(Jobs()), j)
      ensures forall o :: o in repr ==> o in old(repr) || fresh(o)
    {
      var found := Has(j);
      if found {
        return;
      }
      var node := new JobNode(j);
      if jhead == null {
        jhead := node;
      } else {
        jtail.next := node;
      }
      jtail := node;
      nodes, repr := nodes + [node], repr + {node};
    }

    /** Runs the command of every job, in order, and empties the queue. */
    method RunQueue(shell: Shell) returns (run: nat)
      requires Valid()
      modifies this, shell
      ensures shell.started == old(shell.started) + old(Jobs()) && run == |old(Jobs())|
      ensures Valid() && Jobs() == [] && repr == {}
    {
      run := 0;
      var node := jhead;
      while node != null
        invariant 0 <= run <= |nodes| && node == (if run < |nodes| then nodes[run] else null)
        invariant Valid() && Jobs() == old(Jobs()) && shell.started == old(shell.started) + Jobs()[..run]
        decreases |nodes| - run
      {
        shell.DoCommand(node.job);
        node := node.next;
        run := run + 1;
      }
      jhead, jtail := null, null;
      nodes, repr := [], {};
    }
  }

  // ---------------------------------------------------------------- what the queue holds

  function First(s: seq<Job>, j: Job): (k: nat)
    requires j in s
    ensures k < |s| && s[k] == j && j !in s[..k]
  {
    if s[0] == j then 0 else 1 + First(s[1..], j)
  }

  /** No job twice, exactly the jobs of `s`, in the order in which they first occur there. */
  ghost predicate FirstsOf(q: seq<Job>, s: seq<Job>) {
    && (forall i :: 0 <= i < |q| ==> q[i] in s) && (forall i :: 0 <= i < |s| ==> s[i] in q)
    && (forall i, k :: 0 <= i < k < |q| && q[i] in s && q[k] in s ==> First(s, q[i]) < First(s, q[k]))
  }

  lemma {:induction false} FirstUnique(s: seq<Job>, j: Job, k: nat)
    requires k < |s| && s[k] == j && j !in s[..k]
    ensures First(s, j) == k
  {
    if k > 0 {
      assert s[0] == s[..k][0] && s[1..][..k - 1] == s[..k][1..];
      FirstUnique(s[1..], j, k - 1);
    }
  }

  lemma FirstInPrefix(s: seq<Job>, t: seq<Job>, j: Job)
    requires j in s
    ensures First(s + t, j) == First(s, j)
  {
    var k := First(s, j);
    assert (s + t)[..k] == s[..k];
    FirstUnique(s + t, j, k);
  }

  lemma FirstsGrow(q: seq<Job>, s: seq<Job>, j: Job)
    requires FirstsOf(q, s)
    ensures FirstsOf(Queued(q, j), s + [j])
  {
    var q' := Queued(q, j);
    if j !in s {
      assert (s + [j])[..|s|] == s;
      FirstUnique(s + [j], j, |s|);
    }
    forall i, k | 0 <= i < k < |q'| ensures First(s + [j], q'[i]) < First(s + [j], q'[k]) {
      assert q[i] in q;
      FirstInPrefix(s, [j], q[i]);
      if k < |q| {
        assert q[k] in q;
        FirstInPrefix(s, [j], q[k]);
      }
    }
  }

  /** What adding jobs one by one leaves on the queue. */
  lemma {:induction false} QueuedAllFirsts(q: seq<Job>, s: seq<Job>, js: seq<Job>)
    requires FirstsOf(q, s)
    ensures FirstsOf(QueuedAll(q, js), s + js)
    decreases |js|
  {
    if js == [] {
      assert s + js == s;
    } else {
      FirstsGrow(q, s, js[0]);
      assert (s + [js[0]]) + js[1..] == s + js;
      QueuedAllFirsts(Queued(q, js[0]), s + [js[0]], js[1..]);
    }
  }

  lemma NotBefore(q: seq<Job>, s: seq<Job>, k: nat)
    requires FirstsOf(q, s) && k < |q|
    ensures q[k] !in q[..k]
  {
    forall i | 0 <= i < k ensures q[i] != q[k] {
      assert First(s, q[i]) < First(s, q[k]);
    }
  }

  /** Where two such queues agree before `k`, the next job of the one comes no earlier in the other. */
  lemma NoEarlier(q: seq<Job>, q': seq<Job>, s: seq<Job>, k: nat)
    requires FirstsOf(q, s) && FirstsOf(q', s) && k < |q| && k < |q'| && q[..k] == q'[..k]
    ensures q[k] in s && q'[k] in s && First(s, q[k]) <= First(s, q'[k])
  {
    NotBefore(q', s, k);
    assert q == q[..k] + q[k..] && q'[k] in q && q'[k] in q[k..];
    var b :| k <= b < |q| && q[b] == q'[k];
  }

  lemma SameNext(q: seq<Job>, q': seq<Job>, s: seq<Job>, k: nat)
    requires FirstsOf(q, s) && FirstsOf(q', s) && k < |q| && k < |q'| && q[..k] == q'[..k]
    ensures q[..k + 1] == q'[..k + 1]
  {
    NoEarlier(q, q', s, k);
    NoEarlier(q', q, s, k);
    assert q[..k + 1] == q[..k] + [q[k]] && q'[..k + 1] == q'[..k] + [q'[k]];
  }

  lemma {:induction false} FirstsAgree(q: seq<Job>, q': seq<Job>, s: seq<Job>, k: nat)
    requires FirstsOf(q, s) && FirstsOf(q', s) && k <= |q| && k <= |q'|
    ensures q[..k] == q'[..k]
  {
    if k > 0 {
      FirstsAgree(q, q', s, k - 1);
      SameNext(q, q', s, k - 1);
    }
  }

  lemma NoLonger(q: seq<Job>, q': seq<Job>, s: seq<Job>)
    requires FirstsOf(q, s) && FirstsOf(q', s)
    ensures |q| <= |q'|
  {
    if |q| > |q'| {
      FirstsAgree(q, q', s, |q'|);
      NotBefore(q, s, |q'|);
    }
  }

  /** That determines the queue. */
  lemma FirstsDetermine(q: seq<Job>, q': seq<Job>, s: seq<Job>)
    requires FirstsOf(q, s) && FirstsOf(q', s)
    ensures q == q'
  {
    NoLonger(q, q', s);
    NoLonger(q', q, s);
    FirstsAgree(q, q', s, |q|);
    assert q == q[..|q|] && q' == q'[..|q'|];
  }
}
