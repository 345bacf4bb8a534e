/** The event categories a flame graph can be drawn for (EventType.java): each is
    selected by a command-line option, matches one or more JFR event type names, and
    turns a matching event into a weight through a value-field strategy. */
module EventTypes {
  import opened Platform
  import opened Jmc

  /** How an event is turned into a weight (the private enum `ValueField`). */
  datatype ValueField = Count | Duration | AllocationSize | TlabSize
  {
    /** The weight of `event`, or the NullPointerException the strategy throws when the
        event's type has no accessor for the attribute it reads. */
    function GetValue(event: Item): Result<int, Throwable>
    {
      var a := event.attributes;
      match this
      case Count => Success(1)
      case Duration =>
        // Without a duration attribute, the difference end time minus start time.
        if a.duration.Some? then Success(a.duration.value)
        else if a.endTime.Some? && a.startTime.Some? then Success(a.endTime.value - a.startTime.value)
        else Failure(NullPointerException)
      case AllocationSize =>
        // Reads the TLAB size first and the allocation size only when that is absent.
        if a.tlabSize.Some? then Success(a.tlabSize.value)
        else if a.allocationSize.Some? then Success(a.allocationSize.value)
        else Failure(NullPointerException)
      case TlabSize =>
        // The fallback looks up the TLAB size accessor again, so it never helps.
        if a.tlabSize.Some? then Success(a.tlabSize.value)
        else Failure(NullPointerException)
    }
  }

  /** The six event categories, in declaration order. */
  datatype EventType =
    | MethodProfilingSample
    | AllocationInNewTlab
    | AllocationOutsideTlab
    | JavaException
    | JavaMonitorBlocked
    | Io
  {
    /** The option that selects this category on the command line; `toString` returns it. */
    function CommandLineOption(): string
    {
      match this
      case MethodProfilingSample => "cpu"
      case AllocationInNewTlab => "allocation-tlab"
      case AllocationOutsideTlab => "allocation-outside-tlab"
      case JavaException => "exceptions"
      case JavaMonitorBlocked => "monitor-blocked"
      case Io => "io"
    }

    function ValueFieldOf(): ValueField
    {
      match this
      case MethodProfilingSample => Count
      case AllocationInNewTlab => TlabSize
      case AllocationOutsideTlab => AllocationSize
      case JavaException => Count
      case JavaMonitorBlocked => Duration
      case Io => Duration
    }

    /** The JFR event type names this category accepts. */
    function EventNames(): seq<string>
    {
      match this
      case MethodProfilingSample => ["Method Profiling Sample"]
      case AllocationInNewTlab => ["Allocation in new TLAB"]
      case AllocationOutsideTlab => ["Allocation outside TLAB"]
      case JavaException => ["Java Exception"]
      case JavaMonitorBlocked => ["Java Monitor Blocked"]
      case Io => ["File Read", "File Write", "Socket Read", "Socket Write"]
    }

    /** `matches`: some event name of this category equals the event's type name. */
    predicate Matches(event: Item)
    {
      exists i :: 0 <= i < |EventNames()| && EventNames()[i] == event.typeName
    }

    /** `getValue`: the weight this category's value field gives `event`. */
    function GetValue(event: Item): Result<int, Throwable>
    {
      ValueFieldOf().GetValue(event)
    }

    function ToString(): string
    {
      CommandLineOption()
    }
  }

  /** `EventType.values()`. */
  const Values: seq<EventType> :=
    [MethodProfilingSample, AllocationInNewTlab, AllocationOutsideTlab, JavaException, JavaMonitorBlocked, Io]

  /** The map the converter's static initializer builds by putting every category of
      `types` under its option, in order (a later put replaces an earlier one). */
  function TypesByOption(types: seq<EventType>): map<string, EventType>
  {
    if types == [] then map[]
    else
      var last := types[|types| - 1];
      TypesByOption(types[..|types| - 1])[last.CommandLineOption() := last]
  }

  /** The message of the exception `convert` throws for an unknown option. */
  function UnknownOptionMessage(commandLineOption: string): string
  {
    "Event type [" + commandLineOption + "] does not exist."
  }

  /** `EventTypeConverter`: maps a command-line option back to its category. */
  class EventTypeConverter {
    var typesByOption: map<string, EventType>

    ghost predicate Valid()
      reads this
    {
      typesByOption == TypesByOption(Values)
    }

    /** The static initializer: one put per category of `values()`. */
    constructor ()
      ensures Valid()
      ensures |typesByOption| == |Values|
    {
      typesByOption := map[];
      new;
      for i := 0 to |Values|
        invariant typesByOption == TypesByOption(Values[..i])
      {
        assert Values[..i + 1][..i] == Values[..i];
        typesByOption := typesByOption[Values[i].CommandLineOption() := Values[i]];
      }
      assert Values[..|Values|] == Values;
      TypesByOptionHoldsSix();
    }

    /** `convert`: the category whose option is `commandLineOption`, or an
        IllegalArgumentException naming the option. */
    method Convert(commandLineOption: string) returns (r: Result<EventType, Throwable>)
      requires Valid()
      ensures r.Success? <==> exists t: EventType :: t.CommandLineOption() == commandLineOption
      ensures r.Success? ==> r.value.CommandLineOption() == commandLineOption
      ensures r.Failure? ==> r.error == IllegalArgumentException(UnknownOptionMessage(commandLineOption))
      ensures forall t: EventType :: t.ToString() == commandLineOption ==> r == Success(t)
    {
      TypesByOptionLookup(commandLineOption);
      if commandLineOption in typesByOption {
        r := Success(typesByOption[commandLineOption]);
        forall t: EventType | t.ToString() == commandLineOption ensures r == Success(t) {
          OptionsDistinct(t, r.value);
        }
      } else {
        r := Failure(IllegalArgumentException(UnknownOptionMessage(commandLineOption)));
      }
    }
  }

  // ---------------------------------------------------------------------------
  // The registry table

  /** `Values` lists every category exactly once. */
  lemma ValuesListEveryTypeOnce(t: EventType)
    ensures t in Values
    ensures |Values| == 6
    ensures forall i, j :: 0 <= i < j < |Values| ==> Values[i] != Values[j]
  {
  }

  /** `toString` of each category is its command-line option. */
  lemma ToStringIsOption()
    ensures MethodProfilingSample.ToString() == "cpu"
    ensures AllocationInNewTlab.ToString() == "allocation-tlab"
    ensures AllocationOutsideTlab.ToString() == "allocation-outside-tlab"
    ensures JavaException.ToString() == "exceptions"
    ensures JavaMonitorBlocked.ToString() == "monitor-blocked"
    ensures Io.ToString() == "io"
  {
  }

  /** No two categories share an option. */
  lemma OptionsDistinct(t: EventType, u: EventType)
    ensures t.CommandLineOption() == u.CommandLineOption() ==> t == u
  {
  }

  /** No two categories share an event name, so an event matches at most one category. */
  lemma EventNamesDisjoint(t: EventType, u: EventType, event: Item)
    ensures t.Matches(event) && u.Matches(event) ==> t == u
  {
  }

  /** `matches` holds exactly when the event's type name is one of the category's names;
      IO accepts exactly four names. */
  lemma MatchesIffNamed(t: EventType, event: Item)
    ensures t.Matches(event) <==> event.typeName in t.EventNames()
    ensures |Io.EventNames()| == 4
    ensures Io.Matches(event) <==>
      event.typeName in {"File Read", "File Write", "Socket Read", "Socket Write"}
  {
    if event.typeName in t.EventNames() {
      var i :| 0 <= i < |t.EventNames()| && t.EventNames()[i] == event.typeName;
    }
    if event.typeName in Io.EventNames() {
      var i :| 0 <= i < |Io.EventNames()| && Io.EventNames()[i] == event.typeName;
    }
  }

  // ---------------------------------------------------------------------------
  // Weights

  /** The COUNT strategy weighs every event 1, so CPU samples and exceptions weigh 1. */
  lemma CountWeighsOne(event: Item)
    ensures Count.GetValue(event) == Success(1)
    ensures MethodProfilingSample.GetValue(event) == Success(1)
    ensures JavaException.GetValue(event) == Success(1)
  {
  }

  /** `getValue` delegates to the category's value field. */
  lemma GetValueDispatch(event: Item)
    ensures JavaMonitorBlocked.GetValue(event) == Duration.GetValue(event)
    ensures Io.GetValue(event) == Duration.GetValue(event)
    ensures AllocationInNewTlab.GetValue(event) == TlabSize.GetValue(event)
    ensures AllocationOutsideTlab.GetValue(event) == AllocationSize.GetValue(event)
  {
  }

  /** A strategy fails, always with a NullPointerException, exactly when the attribute it
      reads is missing and, for DURATION, the start or the end time is missing as well. */
  lemma GetValueFailsOnlyWithoutAccessor(f: ValueField, event: Item)
    ensures f.GetValue(event).Failure? ==> f.GetValue(event).error == NullPointerException
    ensures f.GetValue(event).Failure? <==>
      var a := event.attributes;
      match f
      case Count => false
      case Duration => a.duration.None? && (a.startTime.None? || a.endTime.None?)
      case AllocationSize => a.tlabSize.None? && a.allocationSize.None?
      case TlabSize => a.tlabSize.None?
  {
  }

  /** Where the attribute is present the strategies return it; ALLOCATION_SIZE takes the
      TLAB size whenever the event has one. */
  lemma GetValueReadsAttribute(event: Item)
    ensures event.attributes.duration.Some? ==> Duration.GetValue(event) == Success(event.attributes.duration.value)
    ensures event.attributes.tlabSize.Some? ==>
      TlabSize.GetValue(event) == AllocationSize.GetValue(event) == Success(event.attributes.tlabSize.value)
  {
  }

  // ---------------------------------------------------------------------------
  // The converter's map

  /** The keys of the built map are the options of the categories put into it. */
  lemma {:induction false} TypesByOptionKeys(types: seq<EventType>, s: string)
    ensures s in TypesByOption(types) <==> exists i :: 0 <= i < |types| && types[i].CommandLineOption() == s
    ensures s in TypesByOption(types) ==> TypesByOption(types)[s].CommandLineOption() == s
    decreases |types|
  {
    if types != [] {
      var init := types[..|types| - 1];
      TypesByOptionKeys(init, s);
      if exists i :: 0 <= i < |init| && init[i].CommandLineOption() == s {
        var i :| 0 <= i < |init| && init[i].CommandLineOption() == s;
        assert types[i] == init[i];
      }
      if exists i :: 0 <= i < |types| && types[i].CommandLineOption() == s {
        var i :| 0 <= i < |types| && types[i].CommandLineOption() == s;
        if i < |types| - 1 {
          assert init[i] == types[i];
        }
      }
    }
  }

  /** Looking an option up in the converter's map: found exactly for the six options. */
  lemma TypesByOptionLookup(s: string)
    ensures s in TypesByOption(Values) <==> exists t: EventType :: t.CommandLineOption() == s
    ensures s in TypesByOption(Values) ==> TypesByOption(Values)[s].CommandLineOption() == s
  {
    TypesByOptionKeys(Values, s);
    if exists t: EventType :: t.CommandLineOption() == s {
      var t: EventType :| t.CommandLineOption() == s;
      ValuesListEveryTypeOnce(t);
      var i :| 0 <= i < |Values| && Values[i] == t;
    }
  }

  /** Round trip: converting the option of a category gives that category back. */
  lemma ConvertRoundTrip(t: EventType)
    ensures t.ToString() in TypesByOption(Values)
    ensures TypesByOption(Values)[t.ToString()] == t
  {
    TypesByOptionLookup(t.CommandLineOption());
    OptionsDistinct(t, TypesByOption(Values)[t.CommandLineOption()]);
  }

  /** The six options are pairwise distinct, so the converter's map holds six entries. */
  lemma TypesByOptionHoldsSix()
    ensures |TypesByOption(Values)| == 6
    ensures TypesByOption(Values).Keys ==
      {"cpu", "allocation-tlab", "allocation-outside-tlab", "exceptions", "monitor-blocked", "io"}
  {
    var keys := {"cpu", "allocation-tlab", "allocation-outside-tlab", "exceptions", "monitor-blocked", "io"};
    var m := TypesByOption(Values);
    forall s | s in m ensures s in keys {
      TypesByOptionLookup(s);
      var t: EventType :| t.CommandLineOption() == s;
      match t
      case MethodProfilingSample =>
      case AllocationInNewTlab =>
      case AllocationOutsideTlab =>
      case JavaException =>
      case JavaMonitorBlocked =>
      case Io =>
    }
    forall t: EventType ensures t.CommandLineOption() in m {
      ConvertRoundTrip(t);
    }
    assert MethodProfilingSample.CommandLineOption() in m && AllocationInNewTlab.CommandLineOption() in m;
    assert AllocationOutsideTlab.CommandLineOption() in m && JavaException.CommandLineOption() in m;
    assert JavaMonitorBlocked.CommandLineOption() in m && Io.CommandLineOption() in m;
    assert TypesByOption(Values).Keys == keys;
  }
}
