/** The calendar component: the list of events the calendar currently shows,
    the events it selects for a day, the weekends switch, and the decision
    of what an event click opens. */
module Calendar {
  import opened Seqs

  datatype Option<T> = None | Some(value: T)

  /** A day of the month, as `Date.getDate()` returns it. */
  type DayOfMonth = d: int | 1 <= d <= 31 witness 1

  /** A calendar date. Time of day and time zone are not modelled. */
  datatype Date = Date(year: int, month: int, day: DayOfMonth)

  /** The date range of a rendered event instance. */
  datatype Range = Range(start: Date, end: Date)

  /** A calendar event as the calendar library hands it over: its id, its
      title, the `ofType` tag of its extended properties (absent for the
      static demo events), and the range of its rendered instance, absent
      when it has none. */
  datatype Event = Event(id: string, title: string, ofType: Option<string>, instance: Option<Range>)

  /** The inclusion test of the day selection: an event with an instance is
      selected for day `dt` when it starts on that day of the month, or when
      it ends on or before that day and starts before it. Only the day of the
      month is compared. The second case also admits events that ended days
      earlier; this is not an interval-intersection test. */
  predicate OnDay(e: Event, dt: DayOfMonth)
  {
    match e.instance
    case None => false
    case Some(range) =>
      if range.start.day == dt then true
      else range.end.day <= dt && range.start.day < dt
  }

  function IsOnDay(dt: DayOfMonth): Event -> bool
  {
    (e: Event) => OnDay(e, dt)
  }

  /** The events selected for day `dt`: those of `events` that pass the
      inclusion test, each once, in their original order. */
  function SelectedOn(events: seq<Event>, dt: DayOfMonth): (r: seq<Event>)
    ensures |r| <= |events|
    ensures forall i :: 0 <= i < |r| ==> r[i] in events && OnDay(r[i], dt)
    ensures forall i :: 0 <= i < |events| && OnDay(events[i], dt) ==> events[i] in r
  {
    Filter(events, IsOnDay(dt))
  }

  /** Selection keeps the order of the events: selecting from a concatenation selects from each part. */
  lemma SelectedOnAppend(a: seq<Event>, b: seq<Event>, dt: DayOfMonth)
    ensures SelectedOn(a + b, dt) == SelectedOn(a, dt) + SelectedOn(b, dt)
  {
    FilterAppend(a, b, IsOnDay(dt));
  }

  /** Each selected event occurs as often as in the input, and no event that fails the test occurs. */
  lemma SelectedOnCount(events: seq<Event>, dt: DayOfMonth, e: Event)
    ensures multiset(SelectedOn(events, dt))[e] == if OnDay(e, dt) then multiset(events)[e] else 0
  {
    FilterCount(events, IsOnDay(dt), e);
  }

  /** An event without an instance is never selected, whatever the day. */
  lemma NoInstanceNeverSelected(events: seq<Event>, e: Event, dt: DayOfMonth)
    requires e.instance.None?
    ensures e !in SelectedOn(events, dt)
  {
  }

  /** An event that starts on the day of the month `dt` is selected, whatever its end. */
  lemma StartingEventSelected(events: seq<Event>, i: nat, dt: DayOfMonth)
    requires i < |events| && events[i].instance.Some?
    requires events[i].instance.value.start.day == dt
    ensures events[i] in SelectedOn(events, dt)
  {
  }

  /** An event that ended on or before the day of the month `dt` and started
      before it is selected too, even when it ended days earlier. */
  lemma EndedEventSelected(events: seq<Event>, i: nat, dt: DayOfMonth)
    requires i < |events| && events[i].instance.Some?
    requires events[i].instance.value.end.day <= dt
    requires events[i].instance.value.start.day < dt
    ensures events[i] in SelectedOn(events, dt)
  {
  }

  /** Nothing else is selected: a selected event has an instance that starts
      on `dt`, or ends on or before `dt` and starts before it. */
  lemma SelectedOnlyByTheTest(events: seq<Event>, e: Event, dt: DayOfMonth)
    requires e in SelectedOn(events, dt)
    ensures e in events && e.instance.Some?
    ensures var range := e.instance.value;
            range.start.day == dt || (range.end.day <= dt && range.start.day < dt)
  {
  }

  /** Same day numbers, same verdict: the month and the year of an event's
      dates never affect whether it is selected. */
  lemma OnlyDayOfMonthCompared(e: Event, e': Event, dt: DayOfMonth)
    requires e.instance.Some? && e'.instance.Some?
    requires e.instance.value.start.day == e'.instance.value.start.day
    requires e.instance.value.end.day == e'.instance.value.end.day
    ensures OnDay(e, dt) == OnDay(e', dt)
  {
  }

  /** The inclusion test is not interval intersection: an event from the 2nd
      to the 4th is selected for the 6th, and an event from the 5th to the
      6th of November 2021 is selected for the 7th. */
  lemma EndedEventsLingerOnLaterDays()
    ensures OnDay(Event("a", "A", None, Some(Range(Date(2021, 11, 2), Date(2021, 11, 4)))), 6)
    ensures OnDay(Event("b", "B", None, Some(Range(Date(2021, 11, 5), Date(2021, 11, 6)))), 7)
  {
  }

  /** What an event click asks for: the note dialog showing a note, or nothing. */
  datatype ClickAction<N> = OpenNoteDialog(note: N) | NoDialog

  /** The answer of a lookup by id: whether the item was found, and the item. */
  datatype Lookup<N> = Lookup(found: bool, item: Option<N>)

  /** The click dispatch decision. `noteType` and `todoType` are the event
      type tags, `getNote` the note lookup by event id. A note-typed event
      whose lookup reports a found note opens the dialog with that note; a
      to-do typed event only reports its to-do to the console, and any other
      event is ignored. */
  function ClickDecision<N>(event: Event, noteType: string, todoType: string, getNote: string -> Lookup<N>): (a: ClickAction<N>)
    ensures a.OpenNoteDialog? <==>
              event.ofType == Some(noteType) && getNote(event.id).found && getNote(event.id).item.Some?
    ensures a.OpenNoteDialog? ==> a.note == getNote(event.id).item.value
  {
    if event.ofType == Some(noteType) then
      var fn := getNote(event.id);
      if fn.found && fn.item.Some? then OpenNoteDialog(fn.item.value) else NoDialog
    else if event.ofType == Some(todoType) then
      NoDialog
    else
      NoDialog
  }

  /** A to-do typed event never opens a dialog, unless the two type tags coincide. */
  lemma ToDoClickOpensNothing<N>(event: Event, noteType: string, todoType: string, getNote: string -> Lookup<N>)
    requires event.ofType == Some(todoType) && todoType != noteType
    ensures ClickDecision(event, noteType, todoType, getNote) == NoDialog
  {
  }

  /** The calendar's options object; the component changes only its `weekends` flag. */
  class CalendarOptions {
    var weekends: bool

    constructor (weekends: bool)
      ensures this.weekends == weekends
    {
      this.weekends := weekends;
    }
  }

  class CalendarComponent {
    var currentEvents: seq<Event>
    var selectedDayEvents: seq<Event>
    var showWeekends: bool
    const calendarOptions: CalendarOptions

    /** The options shown to the calendar agree with the weekends switch. */
    predicate Valid()
      reads this, calendarOptions
    {
      calendarOptions.weekends == showWeekends
    }

    /** A fresh component shows weekends and, through its options, passes
        that setting to the calendar. */
    constructor ()
      ensures Valid() && fresh(calendarOptions)
      ensures currentEvents == [] && selectedDayEvents == [] && showWeekends
    {
      currentEvents := [];
      selectedDayEvents := [];
      showWeekends := true;
      calendarOptions := new CalendarOptions(true);
    }

    /** Flip the weekends switch and pass the new setting to the options. */
    method HandleWeekendsToggle()
      requires Valid()
      modifies this, calendarOptions
      ensures Valid()
      ensures showWeekends == !old(showWeekends)
      ensures currentEvents == old(currentEvents) && selectedDayEvents == old(selectedDayEvents)
    {
      showWeekends := !showWeekends;
      calendarOptions.weekends := showWeekends;
    }

    /** Take the events the calendar now shows and recompute the selection for `today`. */
    method HandleEvents(events: seq<Event>, today: Date)
      requires Valid()
      modifies this
      ensures Valid()
      ensures currentEvents == events
      ensures selectedDayEvents == SelectedOn(events, today.day)
      ensures showWeekends == old(showWeekends)
    {
      currentEvents := events;
      GetSelectedDaysEvents(today);
    }

    /** Clear the selection and refill it, in one pass over the current
        events, with those that pass the inclusion test for `date`'s day of
        the month. */
    method GetSelectedDaysEvents(date: Date)
      modifies this
      ensures selectedDayEvents == SelectedOn(currentEvents, date.day)
      ensures currentEvents == old(currentEvents) && showWeekends == old(showWeekends)
    {
      var dt := date.day;
      selectedDayEvents := [];
      var i := 0;
      while i < |currentEvents|
        invariant 0 <= i <= |currentEvents|
        invariant currentEvents == old(currentEvents) && showWeekends == old(showWeekends)
        invariant selectedDayEvents == SelectedOn(currentEvents[..i], dt)
      {
        var event := currentEvents[i];
        FilterStep(currentEvents, i, IsOnDay(dt));
        if event.instance.Some? {
          if event.instance.value.start.day == dt {
            selectedDayEvents := selectedDayEvents + [event];
          } else if event.instance.value.end.day <= dt && event.instance.value.start.day < dt {
            selectedDayEvents := selectedDayEvents + [event];
          }
        }
        i := i + 1;
      }
      assert currentEvents[..i] == currentEvents;
    }
  }

  /** Toggling the weekends switch twice restores it and the options. */
  method ToggleTwice(c: CalendarComponent)
    requires c.Valid()
    modifies c, c.calendarOptions
    ensures c.Valid()
    ensures c.showWeekends == old(c.showWeekends) && c.calendarOptions.weekends == old(c.calendarOptions.weekends)
  {
    c.HandleWeekendsToggle();
    c.HandleWeekendsToggle();
  }
}
