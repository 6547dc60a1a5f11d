/** What a generator run does to the outside world, recorded instead of
    performed: the directories it creates, the install command it runs and
    the files it writes, in order, and the error that stopped it, if any. */
module Effects {
  import opened Wrappers
  import opened Json

  /** A path is a directory followed by the path segments joined onto it. */
  type Path = seq<string>

  datatype Effect =
    | MakeDir(dir: Path)
    | RunCommand(command: string)
    | WriteFile(file: Path, content: string)

  /** The errors a generator run can stop with. */
  datatype Fault =
      /** `'type' in null`: a `null` element of a children array. */
    | NullChild
      /** `type.toLowerCase()` on a node whose `type` is not a string. */
    | TypeNotString(found: Value)
      /** The install command exited with a failure status. */
    | InstallFailed(command: string)
      /** The page generator's dispatch on the component type. */
    | Unsupported(message: string)

  /** The effects performed, in order, and the fault that ended the run. */
  datatype Run = Run(effects: seq<Effect>, failure: Option<Fault>)

  function Done(effects: seq<Effect>): (r: Run)
    ensures r.failure.None? && r.effects == effects
  {
    Run(effects, None)
  }

  /** `a` followed by `b`; a failed `a` never reaches `b`. */
  function Then(a: Run, b: Run): (r: Run)
    ensures a.failure.Some? ==> r == a
    ensures a.failure.None? ==> r.effects == a.effects + b.effects && r.failure == b.failure
  {
    if a.failure.Some? then a else Run(a.effects + b.effects, b.failure)
  }

  /** The effects of `runs` one after another, as a loop without a `catch`
      performs them: the first failure ends the whole sequence. */
  function RunAll(runs: seq<Run>): Run
    decreases |runs|
  {
    if runs == [] then Done([]) else Then(runs[0], RunAll(runs[1..]))
  }

  function AllEffects(runs: seq<Run>): seq<Effect>
    decreases |runs|
  {
    if runs == [] then [] else runs[0].effects + AllEffects(runs[1..])
  }

  /** When no run fails, everything is performed, in order. */
  lemma {:induction false} RunAllSucceeds(runs: seq<Run>)
    requires forall i :: 0 <= i < |runs| ==> runs[i].failure.None?
    ensures RunAll(runs) == Done(AllEffects(runs))
    decreases |runs|
  {
    if runs != [] {
      RunAllSucceeds(runs[1..]);
    }
  }

  /** When run `k` is the first to fail, the sequence fails with its fault
      after performing exactly the runs up to and including `k`; nothing of
      the later runs happens. */
  lemma {:induction false} RunAllStopsAtFirstFailure(runs: seq<Run>, k: nat)
    requires k < |runs| && runs[k].failure.Some?
    requires forall i :: 0 <= i < k ==> runs[i].failure.None?
    ensures RunAll(runs) == Run(AllEffects(runs[..k + 1]), runs[k].failure)
    decreases k
  {
    if k == 0 {
      assert runs[..1] == [runs[0]];
      assert AllEffects([runs[0]]) == runs[0].effects + AllEffects([]);
    } else {
      var tail := runs[1..];
      RunAllStopsAtFirstFailure(tail, k - 1);
      assert tail[..k] == runs[1..k + 1];
      assert runs[..k + 1] == [runs[0]] + tail[..k];
      assert ([runs[0]] + tail[..k])[1..] == tail[..k];
    }
  }
}
