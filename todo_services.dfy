/** The to-do service's shadow list: a client-side copy of the to-dos the
    server has confirmed, replaced on fetch, appended to on a confirmed add,
    filtered on a confirmed delete, and broadcast to listeners after each
    add or delete. */
module ToDos {
  import opened Seqs

  /** A to-do record as the server stores it. Dates are kept as the strings
      the server sends. */
  datatype ToDo = ToDo(
    id: string,
    title: string,
    description: string,
    completed: bool,
    notification: bool,
    createdDate: string,
    startDateTime: string,
    endDateTime: string)

  /** The body the server answers a successful POST with. */
  datatype AddResponse = AddResponse(message: string, toDoId: string)

  /** How an HTTP request ends: the success value its subscriber receives,
      or a failure, in which case the success callback never runs. */
  datatype Reply<T> = Success(value: T) | Failure

  /** The to-do the add callback builds: the server's id, every other field
      taken from the to-do that was posted. */
  function Confirmed(posted: ToDo, response: AddResponse): (t: ToDo)
    ensures t == posted.(id := response.toDoId)
  {
    ToDo(
      id := response.toDoId,
      title := posted.title,
      description := posted.description,
      completed := posted.completed,
      notification := posted.notification,
      createdDate := posted.createdDate,
      startDateTime := posted.startDateTime,
      endDateTime := posted.endDateTime)
  }

  /** The test of the delete callback's `filter`: keep a to-do whose id differs. */
  function HasOtherId(id: string): ToDo -> bool
  {
    (t: ToDo) => t.id != id
  }

  /** The list that a confirmed delete of `id` leaves: no to-do with that id
      remains, and every to-do with another id is still there. */
  function Without(toDos: seq<ToDo>, id: string): (r: seq<ToDo>)
    ensures |r| <= |toDos|
    ensures forall i :: 0 <= i < |r| ==> r[i].id != id && r[i] in toDos
    ensures forall i :: 0 <= i < |toDos| && toDos[i].id != id ==> toDos[i] in r
  {
    Filter(toDos, HasOtherId(id))
  }

  /** Delete keeps each other to-do as many times as it occurred, and drops
      every occurrence of a to-do with the deleted id. */
  lemma WithoutCount(toDos: seq<ToDo>, id: string, t: ToDo)
    ensures multiset(Without(toDos, id))[t] == if t.id == id then 0 else multiset(toDos)[t]
  {
    FilterCount(toDos, HasOtherId(id), t);
  }

  /** Delete keeps the relative order: deleting from a concatenation deletes from each part. */
  lemma WithoutAppend(a: seq<ToDo>, b: seq<ToDo>, id: string)
    ensures Without(a + b, id) == Without(a, id) + Without(b, id)
  {
    FilterAppend(a, b, HasOtherId(id));
  }

  /** Deleting an id that no to-do has leaves the list as it was. */
  lemma WithoutAbsent(toDos: seq<ToDo>, id: string)
    requires forall i :: 0 <= i < |toDos| ==> toDos[i].id != id
    ensures Without(toDos, id) == toDos
  {
    FilterKeepsAll(toDos, HasOtherId(id));
  }

  /** Deleting the same id twice is deleting it once. */
  lemma WithoutTwice(toDos: seq<ToDo>, id: string)
    ensures Without(Without(toDos, id), id) == Without(toDos, id)
  {
    FilterIdempotent(toDos, HasOtherId(id));
  }

  /** Deleting the id the server gave a newly added to-do takes that to-do
      out again, together with any older to-do that had the same id. */
  lemma DeleteUndoesAdd(toDos: seq<ToDo>, posted: ToDo, response: AddResponse)
    ensures Without(toDos + [Confirmed(posted, response)], response.toDoId) == Without(toDos, response.toDoId)
  {
  }

  /** The service object. `toDos` is its shadow list (a private field); `emitted` is
      every list it has broadcast to update listeners, oldest first. */
  class ToDoServices {
    var toDos: seq<ToDo>
    var emitted: seq<seq<ToDo>>

    /** The latest broadcast equals the shadow list. Every add and delete
        re-establishes this; a fetch does not broadcast, so it may break it. */
    predicate InSync()
      reads this
    {
      emitted != [] && emitted[|emitted| - 1] == toDos
    }

    constructor ()
      ensures toDos == [] && emitted == []
    {
      toDos := [];
      emitted := [];
    }

    /** Fetch all to-dos. On success the fetched list replaces the shadow
        list entirely and is what the caller receives; on failure nothing
        changes. Nothing is broadcast either way. */
    method GetToDos(reply: Reply<seq<ToDo>>) returns (received: Reply<seq<ToDo>>)
      modifies this
      ensures received == reply
      ensures toDos == (if reply.Success? then reply.value else old(toDos))
      ensures emitted == old(emitted)
    {
      received := reply;
      if reply.Success? {
        toDos := reply.value;
      }
    }

    /** Post a to-do. When the server confirms with an id, the confirmed
        to-do is pushed onto the shadow list and a copy of the new list is
        broadcast; when the request fails nothing changes. */
    method AddToDo(toDo: ToDo, reply: Reply<AddResponse>)
      modifies this
      ensures reply.Success? ==> toDos == old(toDos) + [Confirmed(toDo, reply.value)]
      ensures reply.Success? ==> emitted == old(emitted) + [toDos] && InSync()
      ensures reply.Failure? ==> toDos == old(toDos) && emitted == old(emitted)
    {
      if reply.Success? {
        var newToDo := Confirmed(toDo, reply.value);
        toDos := toDos + [newToDo];
        emitted := emitted + [toDos];
      }
    }

    /** Delete a to-do by id. When the server confirms, every to-do with that
        id is filtered out of the shadow list and a copy of the new list is
        broadcast; when the request fails nothing changes. */
    method DeleteToDo(toDoId: string, reply: Reply<()>)
      modifies this
      ensures reply.Success? ==> toDos == Without(old(toDos), toDoId)
      ensures reply.Success? ==> emitted == old(emitted) + [toDos] && InSync()
      ensures reply.Failure? ==> toDos == old(toDos) && emitted == old(emitted)
    {
      if reply.Success? {
        var updatedToDos := Without(toDos, toDoId);
        toDos := updatedToDos;
        emitted := emitted + [toDos];
      }
    }
  }

  /** A confirmed add followed by a confirmed delete of the new id leaves the
      shadow list as a delete of that id alone would, and a second confirmed
      delete of the same id changes nothing but broadcasts again. */
  method AddThenDeleteTwice(s: ToDoServices, toDo: ToDo, response: AddResponse)
    modifies s
    ensures s.toDos == Without(old(s.toDos), response.toDoId)
    ensures |s.emitted| == |old(s.emitted)| + 3 && s.InSync()
  {
    s.AddToDo(toDo, Success(response));
    s.DeleteToDo(response.toDoId, Success(()));
    DeleteUndoesAdd(old(s.toDos), toDo, response);
    s.DeleteToDo(response.toDoId, Success(()));
    WithoutTwice(old(s.toDos), response.toDoId);
  }
}
