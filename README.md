# Planner app: to-do shadow list and calendar day selection

This project is a verified Dafny model of two pieces of sequential logic in
the planner app, an Angular client for notes, to-dos and a calendar.

- **To-do service** (`ToDoServices`, module `ToDos`, file `todo_services.dfy`).
  The service keeps a shadow list of to-dos the server has confirmed. The
  field is declared private, but after a fetch the same array is also held by
  the fetch's subscriber (see `ToDos.ToDoServices.GetToDos` under "## Left out").
  - A fetch replaces the whole list with the fetched one.
  - A confirmed add appends the posted to-do, with the id the server returned.
  - A confirmed delete filters out every to-do with the deleted id.
  - After each add or delete, a copy of the new list is broadcast to update listeners.

  Each HTTP request is a parameter `Reply<T>`: either the value its success
  callback receives, or `Failure`, in which case the callback never runs. The
  broadcast subject is the field `emitted`, which holds every list broadcast
  so far, oldest first.
- **Calendar component** (`CalendarComponent`, module `Calendar`, file
  `calendar_component.dfy`).
  - The component holds the events the calendar currently shows and the
    events selected for a day.
  - It has a weekends switch that it keeps in step with the calendar options.
  - It decides whether an event click opens the note dialog.

  Dates are records of year, month and day of the month (1 to 31). Only the
  day of the month enters the selection test, as in the source.
- **Filtering** (module `Seqs`, file `filter.dfy`) is the order-preserving
  filter that both pieces use. The service uses it as `Array.prototype.filter`.
  The component uses it as a `forEach` loop that pushes onto a cleared list.
  Its lemmas carry the properties both pieces rely on: concatenation, counts,
  identity and idempotence.

Two behaviours of the code are worth stating plainly:
- **Day selection.** The day selection is not an interval-intersection test.
  The code admits any event that ends on or before the day of the month and
  starts before it, however long ago it ended. So an event from the 2nd to
  the 4th is selected on the 6th, and one from the 5th to the 6th is selected
  on the 7th. `OnDay` keeps the code's test, and
  `EndedEventsLingerOnLaterDays` shows both cases.
- **Fetch broadcast.** A fetch only assigns the list
  (`plannerApp/src/app/services/toDo.services.ts:33`) and broadcasts
  nothing. So `InSync` (the latest broadcast equals the shadow list) holds
  after every add and delete, but not necessarily after a fetch.

## Model

| member | source | states |
|---|---|---|
| `Seqs.Filter` | plannerApp/src/app/services/toDo.services.ts:67 | the filtered list is no longer than the input, holds only input elements that pass the test, and holds every input element that passes it |
| `Seqs.FilterStep` | plannerApp/src/app/calendar/calendar.component.ts:181-192 | one iteration of a push-onto-accumulator loop extends the filtered prefix by the new element exactly when that element passes the test |
| `Seqs.FilterAppend` | plannerApp/src/app/services/toDo.services.ts:67 | filtering a concatenation is the concatenation of the filtered parts, so kept elements stay in their original relative order |
| `Seqs.FilterCount` | plannerApp/src/app/services/toDo.services.ts:67 | an element that passes the test occurs in the result as often as in the input; one that fails occurs zero times |
| `Seqs.FilterKeepsAll` | plannerApp/src/app/services/toDo.services.ts:67 | when every element passes the test, the filter returns the input unchanged |
| `Seqs.FilterIdempotent` | plannerApp/src/app/services/toDo.services.ts:67 | filtering twice with one test equals filtering once |
| `ToDos.Confirmed` | plannerApp/src/app/services/toDo.services.ts:44-53 | the to-do built on a confirmed add is the posted to-do with only its id replaced by the response's `toDoId`; title, description, completed, notification and the three dates are the posted ones |
| `ToDos.Without` | plannerApp/src/app/services/toDo.services.ts:67 | after a delete no to-do has the deleted id, every remaining to-do was in the list, and every to-do with another id is kept |
| `ToDos.WithoutCount` | plannerApp/src/app/services/toDo.services.ts:67 | delete keeps each to-do with another id exactly as many times as it occurred, and none with the deleted id |
| `ToDos.WithoutAppend` | plannerApp/src/app/services/toDo.services.ts:67 | delete preserves the original relative order (it distributes over concatenation) |
| `ToDos.WithoutAbsent` | plannerApp/src/app/services/toDo.services.ts:67 | deleting an id no to-do has leaves the list unchanged |
| `ToDos.WithoutTwice` | plannerApp/src/app/services/toDo.services.ts:67 | deleting the same id twice equals deleting it once |
| `ToDos.DeleteUndoesAdd` | plannerApp/src/app/services/toDo.services.ts:45-67 | deleting the server-assigned id of a just-added to-do gives the same list as deleting that id before the add |
| `ToDos.ToDoServices.constructor` | plannerApp/src/app/services/toDo.services.ts:14-19 | a new service starts with an empty shadow list and has broadcast nothing |
| `ToDos.ToDoServices.GetToDos` | plannerApp/src/app/services/toDo.services.ts:27-34 | on success the shadow list becomes exactly the fetched list, nothing merged, and the caller receives that list; on failure it is unchanged; no broadcast either way |
| `ToDos.ToDoServices.AddToDo` | plannerApp/src/app/services/toDo.services.ts:36-60 | on success the list is the old list plus the confirmed to-do at the end, and the new list is broadcast; on failure neither the list nor the broadcasts change |
| `ToDos.ToDoServices.DeleteToDo` | plannerApp/src/app/services/toDo.services.ts:62-73 | on success the list is the old list without every to-do of that id, and the new list is broadcast; on failure nothing changes |
| `ToDos.AddThenDeleteTwice` | plannerApp/src/app/services/toDo.services.ts:36-73 | a confirmed add, then two confirmed deletes of the new id, leave the list as one delete of that id would; three lists are broadcast and the latest equals the list |
| `Calendar.SelectedOn` | plannerApp/src/app/calendar/calendar.component.ts:176-193 | the selection holds only current events that pass the inclusion test, and holds every current event that passes it |
| `Calendar.SelectedOnAppend` | plannerApp/src/app/calendar/calendar.component.ts:179-192 | the selection keeps the events' original order (it distributes over concatenation) |
| `Calendar.SelectedOnCount` | plannerApp/src/app/calendar/calendar.component.ts:181-190 | a passing event occurs in the selection as often as in the current events, so each is added once per occurrence; a failing event never occurs |
| `Calendar.NoInstanceNeverSelected` | plannerApp/src/app/calendar/calendar.component.ts:182 | an event without a rendered instance is never selected |
| `Calendar.StartingEventSelected` | plannerApp/src/app/calendar/calendar.component.ts:183-184 | an event whose instance starts on the given day of the month is selected |
| `Calendar.EndedEventSelected` | plannerApp/src/app/calendar/calendar.component.ts:185-189 | an event whose instance ends on or before the given day and starts before it is selected, even if it ended earlier |
| `Calendar.SelectedOnlyByTheTest` | plannerApp/src/app/calendar/calendar.component.ts:182-190 | every selected event is a current event with an instance that starts on the day, or ends on or before it and starts before it |
| `Calendar.OnlyDayOfMonthCompared` | plannerApp/src/app/calendar/calendar.component.ts:177-187 | two events whose instances have the same start and end days of the month get the same verdict, whatever their months and years |
| `Calendar.EndedEventsLingerOnLaterDays` | plannerApp/src/app/calendar/calendar.component.ts:185-189 | an event from the 2nd to the 4th is selected for the 6th, and one from the 5th to the 6th is selected for the 7th |
| `Calendar.ClickDecision` | plannerApp/src/app/calendar/calendar.component.ts:124-141 | the note dialog is requested if and only if the event's type is the note type and the note lookup by its id reports found with a note; the dialog gets that note |
| `Calendar.ToDoClickOpensNothing` | plannerApp/src/app/calendar/calendar.component.ts:135-140 | a to-do typed event never requests a dialog, when the two type tags differ |
| `Calendar.CalendarOptions.constructor` | plannerApp/src/app/calendar/calendar.component.ts:37-44 | the options object starts with the weekends flag it is given |
| `Calendar.CalendarComponent.constructor` | plannerApp/src/app/calendar/calendar.component.ts:30-44 | a new component has no current or selected events, shows weekends, and its options agree with the switch |
| `Calendar.CalendarComponent.HandleWeekendsToggle` | plannerApp/src/app/calendar/calendar.component.ts:154-160 | the switch is negated and the options' weekends flag equals the new switch; the events are untouched |
| `Calendar.CalendarComponent.HandleEvents` | plannerApp/src/app/calendar/calendar.component.ts:163-173 | the current events become exactly the given list, and the selection becomes its filter for today's day of the month |
| `Calendar.CalendarComponent.GetSelectedDaysEvents` | plannerApp/src/app/calendar/calendar.component.ts:176-193 | the loop clears the selection and rebuilds it as the order-preserving filter of the current events by the inclusion test; the current events stay unchanged |
| `Calendar.ToggleTwice` | plannerApp/src/app/calendar/calendar.component.ts:154-160 | toggling the weekends switch twice restores the switch and the options' flag |

## Left out

- The HTTP transport and the endpoint URLs are not modelled. Each request is represented only by its success value or by failure.
- The single-item fetch `getToDo` is not modelled. It reads nothing from the shadow list and writes nothing to it.
- The rxjs `Subject` and `getToDosUpdateListener` are not modelled. Broadcasts are recorded as the sequence `emitted`.
- Router navigation and `window.location.reload()` after an add or delete are not modelled. They are browser side effects.
- Console logging is not modelled. This includes the to-do branch of the click handler, which only logs the to-do it finds. That branch's lookup `getTodo` is therefore not a parameter of `ClickDecision`.
- `alert` is not modelled.
- `handleDateSelect`, `handleDateClick`, the empty `handleDidMountEvent`, `ngOnInit`, `ngOnDestroy` and change detection are not modelled.
- The dialog configuration and opening in `openDialog` are not modelled. A dialog request is only the action `OpenNoteDialog(note)`.
- The calendar service is not part of this model. Its type tags and its note lookup are parameters of `ClickDecision`.
- The static calendar options, the demo events and `getEvents` are constant data and are not modelled. Of the options, only the `weekends` flag is modelled.
- JavaScript `Date` and time zones are not modelled. Dates are integers, and "today" is a parameter of `HandleEvents` instead of a clock read.
- The to-do and note model files are not part of this model. The to-do's date fields are strings, and `notification` is a boolean.
- The Angular module wiring and the calendar plugin registration are not modelled.
- ToDos.ToDoServices.GetToDos: does not model that the source shares the fetched array with the fetch's subscriber. Line 33 both stores and returns the same array. An add's in-place `push` (line 55) is therefore visible through the subscriber's array, and a change the subscriber makes to that array changes the shadow list. A delete's reassignment (lines 67-69) ends the sharing. The model treats lists as values, so it captures neither this aliasing nor the second writer it allows.
