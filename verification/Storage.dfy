/**
 * The atomic durable file behind the policy store: a temporary file is filled and flushed, renamed over the
 * visible file, and the directory is flushed. Every one of these steps can fail, and the machine can lose
 * power between any two of them.
 */
module Storage {
  import opened Common
  import opened Hosts

  /** A file whose bytes were not flushed holds nothing reliable after a loss of power. */
  datatype Content<T> = Whole(value: T) | Torn

  datatype File<T> = Missing | File(content: Content<T>, flushed: bool)

  datatype Phase<T> =
    | Idle
    | Filling(value: T)
    | Flushing(value: T)
    | Renaming(value: T)
    | SyncingDirectory(value: T)

  datatype Outcome = Running | Succeeded | Failed

  predicate Intact<T>(f: File<T>) {
    f.File? ==> f.content.Whole? && f.flushed
  }

  function Survivor<T>(f: File<T>): (g: File<T>)
    ensures Intact(f) ==> g == f
  {
    if f.File? && !f.flushed then File(Torn, true) else f
  }

  function Reading<T>(f: File<T>): Option<T>
    requires Intact(f)
  {
    if f.Missing? then None else Some(f.content.value)
  }

  class AtomicFile<T> {
    /** What a reader of the directory sees. */
    var visible: File<T>
    /** What a reader sees after a loss of power. */
    var durable: File<T>
    var temporary: File<T>
    var phase: Phase<T>

    ghost predicate Valid()
      reads this
    {
      && Intact(visible)
      && Intact(durable)
      && (phase.Flushing? ==> temporary.File? && temporary.content == Whole(phase.value))
      && (phase.Renaming? ==> temporary == File(Whole(phase.value), true))
      && (phase.SyncingDirectory? ==> visible == File(Whole(phase.value), true))
    }

    function Visible(): Option<T>
      requires Valid()
      reads this
    {
      Reading(visible)
    }

    function Durable(): Option<T>
      requires Valid()
      reads this
    {
      Reading(durable)
    }

    /** The value being written, if a write is under way. */
    ghost function Pending(): Option<T>
      reads this
    {
      if phase.Idle? then None else Some(phase.value)
    }

    ghost function Remaining(): nat
      reads this
    {
      match phase
      case Idle => 0
      case Filling(_) => 4
      case Flushing(_) => 3
      case Renaming(_) => 2
      case SyncingDirectory(_) => 1
    }

    constructor ()
      ensures Valid() && Pending() == None && Visible() == None && Durable() == None
    {
      visible, durable, temporary, phase := Missing, Missing, Missing, Idle;
    }

    method Begin(value: T)
      requires Valid() && Pending() == None
      modifies this
      ensures Valid() && Pending() == Some(value)
      ensures Visible() == old(Visible()) && Durable() == old(Durable())
    {
      temporary := File(Torn, false);
      phase := Filling(value);
    }

    /**
     * One system call of the write. A failure ends the write, and the caller cannot tell whether the new value
     * is already in place; success means that it is both visible and durable.
     */
    method Step(host: Host) returns (outcome: Outcome)
      requires Valid() && Pending().Some?
      modifies this, host`now, host`instant, host`faults
      ensures Valid() && host.Later()
      ensures outcome == Failed <==> host.faults > old(host.faults)
      ensures outcome == Outcome.Running ==> Pending() == old(Pending()) && Remaining() < old(Remaining())
      ensures outcome != Outcome.Running ==> Pending() == None
      ensures Visible() in {old(Visible()), old(Pending())}
      ensures Durable() in {old(Durable()), old(Visible()), Visible()}
      ensures outcome == Succeeded ==> Visible() == old(Pending()) && Durable() == old(Pending())
    {
      var reachesDisk: bool := *;
      if reachesDisk {
        // The operating system may write the directory back on its own.
        durable := visible;
      }
      var ok := host.Works();
      if !ok {
        phase := Idle;
        return Failed;
      }
      match phase {
        case Filling(value) =>
          temporary := File(Whole(value), false);
          phase := Flushing(value);
        case Flushing(value) =>
          temporary := File(temporary.content, true);
          phase := Renaming(value);
        case Renaming(value) =>
          visible := temporary;
          phase := SyncingDirectory(value);
        case SyncingDirectory(value) =>
          durable := visible;
          phase := Idle;
          return Succeeded;
      }
      return Outcome.Running;
    }

    /**
     * The process dies at a point where `seen` was visible and `kept` was durable; a write under way stops
     * there. When the machine loses power as well, only the durable directory remains.
     */
    method Crash(seen: Option<T>, kept: Option<T>, powerLost: bool)
      requires Valid()
      modifies this
      ensures Valid() && Pending() == None && Durable() == kept
      ensures Visible() == if powerLost then kept else seen
    {
      visible := if seen.None? then Missing else File(Whole(seen.value), true);
      durable := if kept.None? then Missing else File(Whole(kept.value), true);
      if powerLost {
        visible := Survivor(durable);
      }
      phase := Idle;
    }
  }
}
