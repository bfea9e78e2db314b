/** Deadline monitor: the updates of one packed word, and the object that owns the words,
    the templates and their in-use flags. */
module DeadlineMonitor {
  import opened Common
  import opened DeadlineState

  type Tag = string

  datatype EvaluationError = TooEarly | TooLate
  datatype MonitorError = DeadlineInUse | DeadlineNotFound

  /** The closure of `start_internal`: `None` leaves the word as it is (the start is refused). */
  function StartUpdate(current: Word, maxTime: U32): Option<Word> {
    if IsRunning(current) || IsUnderrun(current) then None
    else Some(SetRunning(SetTimestampMs(DEFAULT, maxTime)))
  }

  /** The closure of `stop_internal`: the new word (`None`: unchanged) and the logged error. */
  function StopUpdate(current: Word, now: U32, range: TimeRange): (Option<Word>, Option<EvaluationError>)
    requires range.max <= TimestampMs(current)  // the subtraction below is on u32
  {
    var expected := TimestampMs(current);
    if expected < now then (None, Some(TooLate))
    else if now < expected - range.max + range.min then (Some(SetUnderrun(current)), Some(TooEarly))
    else (Some(DEFAULT), None)
  }

  /** `fetch_update` as one atomic step. */
  function Apply(current: Word, update: Option<Word>): Word {
    if update.Some? then update.value else current
  }

  /** What one loop iteration of `evaluate` reports for a word loaded earlier, the clock reading
      being `now`. */
  function Report(snapshot: Word, now: nat): Option<EvaluationError> {
    if IsUnderrun(snapshot) then Some(TooEarly)
    else if IsRunning(snapshot) && now > TimestampMs(snapshot) then Some(TooLate)
    else None
  }

  /** The reports of a whole loop over the words, in slot order. */
  function Reports(tags: seq<Tag>, words: seq<Word>, nows: seq<nat>): seq<(Tag, EvaluationError)>
    requires |tags| == |words| == |nows|
  {
    if words == [] then []
    else
      var last := |words| - 1;
      var before := Reports(tags[..last], words[..last], nows[..last]);
      var report := Report(words[last], nows[last]);
      if report.Some? then before + [(tags[last], report.value)] else before
  }

  /** A template: the range and the slot it was assigned. */
  datatype Template = Template(range: TimeRange, index: nat)

  /** A deadline object handed to the application. */
  datatype Deadline = Deadline(range: TimeRange, tag: Tag, index: nat)

  /** Templates and slots are in bijection. */
  ghost predicate Bijection(templates: map<Tag, Template>, tags: seq<Tag>) {
    && (forall t :: t in templates ==> templates[t].index < |tags| && tags[templates[t].index] == t)
    && (forall i :: 0 <= i < |tags| ==> tags[i] in templates && templates[tags[i]].index == i)
  }

  class DeadlineMonitorInner {
    const templates: map<Tag, Template>
    const tags: seq<Tag>
    const active: array<Word>
    var inUse: set<Tag>

    ghost predicate Valid()
      reads this
    {
      && Bijection(templates, tags)
      && active.Length == |tags|
      && inUse <= templates.Keys
    }

    /** Fills the slots in whatever order the hash map of ranges is iterated. */
    constructor (deadlines: map<Tag, TimeRange>, order: seq<Tag>)
      requires IterationOrder(order, deadlines)
      ensures Valid() && fresh(active)
      ensures templates.Keys == deadlines.Keys && tags == order
      ensures forall t :: t in deadlines ==> templates[t].range == deadlines[t]
      ensures inUse == {} && forall i :: 0 <= i < active.Length ==> active[i] == DEFAULT
    {
      var slots := [];
      var built: map<Tag, Template> := map[];
      for index := 0 to |order|
        invariant slots == order[..index]
        invariant forall t :: t in built <==> t in order[..index]
        invariant forall t :: t in built ==> t in deadlines && built[t].range == deadlines[t]
        invariant forall i :: 0 <= i < index ==> order[i] in built && built[order[i]].index == i
        invariant forall t :: t in built ==> built[t].index < index && order[built[t].index] == t
      {
        slots := slots + [order[index]];
        built := built[order[index] := Template(deadlines[order[index]], index)];
      }
      templates := built;
      tags := slots;
      inUse := {};
      active := new Word[|slots|](_ => DEFAULT);
    }

    /** Looks the template up and claims its in-use flag by compare-exchange. */
    method GetDeadline(tag: Tag) returns (result: Result<Deadline, MonitorError>)
      requires Valid()
      modifies this`inUse
      ensures Valid()
      ensures tag !in templates ==> result == Err(DeadlineNotFound) && inUse == old(inUse)
      ensures tag in old(inUse) ==> result == Err(DeadlineInUse) && inUse == old(inUse)
      ensures tag in templates && tag !in old(inUse) ==>
                && result == Ok(Deadline(templates[tag].range, tag, templates[tag].index))
                && inUse == old(inUse) + {tag}
    {
      if tag in templates {
        if tag !in inUse {
          inUse := inUse + {tag};
          result := Ok(Deadline(templates[tag].range, tag, templates[tag].index));
        } else {
          result := Err(DeadlineInUse);
        }
      } else {
        result := Err(DeadlineNotFound);
      }
    }

    /** Run when a deadline object is dropped. */
    method ReleaseDeadline(tag: Tag)
      requires Valid() && tag in templates
      modifies this`inUse
      ensures Valid() && inUse == old(inUse) - {tag}
    {
      inUse := inUse - {tag};
    }

    /** `start_internal`: `now + max` must fit in 32 bits. */
    method StartInternal(deadline: Deadline, now: U32) returns (started: bool)
      requires Valid() && deadline.index < |tags| && now + deadline.range.max < 0x1_0000_0000
      modifies active
      ensures Valid()
      ensures var update := StartUpdate(old(active[deadline.index]), now + deadline.range.max);
              && started == update.Some?
              && active[..] == old(active[..])[deadline.index := Apply(old(active[deadline.index]), update)]
    {
      var maxTime := now + deadline.range.max;
      var current := active[deadline.index];
      if IsRunning(current) || IsUnderrun(current) {
        started := false;
      } else {
        var new_ := SetTimestampMs(DEFAULT, maxTime);
        new_ := SetRunning(new_);
        active[deadline.index] := new_;
        started := true;
      }
    }

    method StopInternal(deadline: Deadline, now: U32) returns (logged: Option<EvaluationError>)
      requires Valid() && deadline.index < |tags|
      requires deadline.range.max <= TimestampMs(active[deadline.index])
      modifies active
      ensures Valid()
      ensures var (update, error) := StopUpdate(old(active[deadline.index]), now, deadline.range);
              && logged == error
              && active[..] == old(active[..])[deadline.index := Apply(old(active[deadline.index]), update)]
    {
      var current := active[deadline.index];
      var expected := TimestampMs(current);
      if expected < now {
        return Some(TooLate);
      }
      var startTime := expected - deadline.range.max;
      var earliestTime := startTime + deadline.range.min;
      if now < earliestTime {
        active[deadline.index] := SetUnderrun(current);
        return Some(TooEarly);
      }
      active[deadline.index] := DEFAULT;
      logged := None;
    }

    /** One evaluation; `nows[i]` is the clock read in iteration `i`. */
    method Evaluate(nows: seq<nat>) returns (errors: seq<(Tag, EvaluationError)>)
      requires Valid() && |nows| == |tags|
      ensures errors == Reports(tags, active[..], nows)
    {
      errors := [];
      for i := 0 to active.Length
        invariant errors == Reports(tags[..i], active[..i], nows[..i])
      {
        var snapshot := active[i];
        assert tags[..i + 1][..i] == tags[..i] && active[..i + 1][..i] == active[..i]
               && nows[..i + 1][..i] == nows[..i];
        if IsUnderrun(snapshot) {
          errors := errors + [(tags[i], TooEarly)];
        } else if IsRunning(snapshot) {
          var now := nows[i];
          var expected := TimestampMs(snapshot);
          if now > expected {
            errors := errors + [(tags[i], TooLate)];
          }
        }
      }
      assert tags[..active.Length] == tags && active[..active.Length] == active[..] && nows[..active.Length] == nows;
    }
  }
}
