/**
 * The job queue as the handlers use it: `run_repeating` appends a job named
 * `pinger_job_{chat_id}`, and `get_jobs_by_name(name)` followed by
 * `schedule_removal()` on each drops every job of that name (taken here to happen
 * at once).
 */
module Jobs {
  import opened Decimal

  /** A repeating job: its name, the chat it pings for, its period and first delay in seconds. */
  datatype Job = Job(name: string, chat: int, interval: int, first: int)

  const JOB_PREFIX := "pinger_job_"

  /** Delay before the first run of a job started from the menu. */
  const START_DELAY := 1
  /** Delay before the first run of a job restored at boot. */
  const RESTORE_DELAY := 10

  /** `f"pinger_job_{chat_id}"`. */
  function JobName(chat: int): string {
    JOB_PREFIX + Show(chat)
  }

  /** Different chats never share a job name. */
  lemma JobNameInjective(a: int, b: int)
    requires JobName(a) == JobName(b)
    ensures a == b
  {
    assert Show(a) == JobName(a)[|JOB_PREFIX|..];
    assert Show(b) == JobName(b)[|JOB_PREFIX|..];
    ShowInjective(a, b);
  }

  /** Every job carries the name built from its own chat id. */
  predicate WellNamed(jobs: seq<Job>) {
    forall k :: 0 <= k < |jobs| ==> jobs[k].name == JobName(jobs[k].chat)
  }

  /** `get_jobs_by_name(name)`, in queue order. */
  function Named(jobs: seq<Job>, name: string): (r: seq<Job>)
    ensures forall j :: j in r <==> j in jobs && j.name == name
    ensures |r| <= |jobs|
  {
    if jobs == [] then []
    else if jobs[0].name == name then [jobs[0]] + Named(jobs[1..], name)
    else Named(jobs[1..], name)
  }

  /** The queue once every job called `name` has been removed. */
  function Without(jobs: seq<Job>, name: string): (r: seq<Job>)
    ensures forall j :: j in r <==> j in jobs && j.name != name
    ensures |r| + |Named(jobs, name)| == |jobs|
  {
    if jobs == [] then []
    else if jobs[0].name == name then Without(jobs[1..], name)
    else [jobs[0]] + Without(jobs[1..], name)
  }

  /** The job `toggle_pinger` and `save_interval` start: first run after one second. */
  function StartJob(chat: int, interval: int): Job {
    Job(JobName(chat), chat, interval, START_DELAY)
  }

  /** The job `post_init` restores: first run after ten seconds. */
  function RestoreJob(chat: int, interval: int): Job {
    Job(JobName(chat), chat, interval, RESTORE_DELAY)
  }

  /** Stopping: every job of the chat is removed. */
  function Stopped(jobs: seq<Job>, chat: int): seq<Job> {
    Without(jobs, JobName(chat))
  }

  /** Starting: a job is appended, whatever jobs the chat already has. */
  function Started(jobs: seq<Job>, chat: int, interval: int): seq<Job> {
    jobs + [StartJob(chat, interval)]
  }

  /** Rescheduling: every job of the chat is removed and one new job appended. */
  function Rescheduled(jobs: seq<Job>, chat: int, interval: int): seq<Job> {
    Started(Stopped(jobs, chat), chat, interval)
  }

  lemma {:induction false} NamedAppend(a: seq<Job>, b: seq<Job>, name: string)
    ensures Named(a + b, name) == Named(a, name) + Named(b, name)
    decreases |a|
  {
    if a != [] {
      assert (a + b)[1..] == a[1..] + b;
      NamedAppend(a[1..], b, name);
    } else {
      assert a + b == b;
    }
  }

  /** `Named` keeps every copy of a job with the name, so stacked equal jobs are all selected. */
  lemma {:induction false} NamedCount(jobs: seq<Job>, name: string)
    ensures forall j :: multiset(Named(jobs, name))[j] == if j.name == name then multiset(jobs)[j] else 0
    decreases |jobs|
  {
    if jobs != [] {
      NamedCount(jobs[1..], name);
      assert jobs == [jobs[0]] + jobs[1..];
      assert multiset(jobs) == multiset{jobs[0]} + multiset(jobs[1..]);
    }
  }

  /** After a stop the chat has no job left. */
  lemma {:induction false} StoppedLeavesNone(jobs: seq<Job>, chat: int)
    ensures Named(Stopped(jobs, chat), JobName(chat)) == []
    decreases |jobs|
  {
    if jobs != [] {
      StoppedLeavesNone(jobs[1..], chat);
      if jobs[0].name != JobName(chat) {
        var r := Stopped(jobs, chat);
        assert r[0] == jobs[0] && r[1..] == Stopped(jobs[1..], chat);
      }
    }
  }

  /** A start stacks: the chat has one job more than before, even if it already had one. */
  lemma StartedStacks(jobs: seq<Job>, chat: int, interval: int)
    ensures Named(Started(jobs, chat, interval), JobName(chat))
            == Named(jobs, JobName(chat)) + [StartJob(chat, interval)]
  {
    NamedAppend(jobs, [StartJob(chat, interval)], JobName(chat));
  }

  /** After a reschedule the chat has exactly one job, at the new interval. */
  lemma RescheduledLeavesOne(jobs: seq<Job>, chat: int, interval: int)
    ensures Named(Rescheduled(jobs, chat, interval), JobName(chat)) == [StartJob(chat, interval)]
  {
    StoppedLeavesNone(jobs, chat);
    StartedStacks(Stopped(jobs, chat), chat, interval);
  }

  /** Stopping one chat leaves every other chat's jobs as they were, in order. */
  lemma {:induction false} StoppedKeepsOthers(jobs: seq<Job>, chat: int, other: int)
    requires WellNamed(jobs) && other != chat
    ensures Named(Stopped(jobs, chat), JobName(other)) == Named(jobs, JobName(other))
    decreases |jobs|
  {
    if jobs != [] {
      if jobs[0].name == JobName(chat) && jobs[0].name == JobName(other) {
        JobNameInjective(chat, other);
      }
      assert WellNamed(jobs[1..]) by {
        forall k | 0 <= k < |jobs[1..]|
          ensures jobs[1..][k].name == JobName(jobs[1..][k].chat)
        {
          assert jobs[1..][k] == jobs[k + 1];
        }
      }
      StoppedKeepsOthers(jobs[1..], chat, other);
    }
  }

  /** Starting and then stopping a chat leaves the queue as stopping alone would. */
  lemma {:induction false} StartThenStop(jobs: seq<Job>, chat: int, interval: int)
    ensures Stopped(Started(jobs, chat, interval), chat) == Stopped(jobs, chat)
    decreases |jobs|
  {
    if jobs == [] {
      assert Started(jobs, chat, interval) == [StartJob(chat, interval)];
    } else {
      assert Started(jobs, chat, interval)[1..] == Started(jobs[1..], chat, interval);
      StartThenStop(jobs[1..], chat, interval);
    }
  }

  /** A name no job carries selects nothing. */
  lemma NamedNone(jobs: seq<Job>, name: string)
    requires forall k :: 0 <= k < |jobs| ==> jobs[k].name != name
    ensures Named(jobs, name) == []
  {
  }

  /** A name exactly one job carries selects that job. */
  lemma {:induction false} NamedSingle(jobs: seq<Job>, name: string, k: int)
    requires 0 <= k < |jobs| && jobs[k].name == name
    requires forall l :: 0 <= l < |jobs| && l != k ==> jobs[l].name != name
    ensures Named(jobs, name) == [jobs[k]]
    decreases |jobs|
  {
    if k == 0 {
      forall l | 0 <= l < |jobs[1..]|
        ensures jobs[1..][l].name != name
      {
        assert jobs[1..][l] == jobs[l + 1];
      }
      NamedNone(jobs[1..], name);
    } else {
      forall l | 0 <= l < |jobs[1..]| && l != k - 1
        ensures jobs[1..][l].name != name
      {
        assert jobs[1..][l] == jobs[l + 1];
      }
      NamedSingle(jobs[1..], name, k - 1);
    }
  }
}
