/**
 The decisions the four todo handlers make, with everything they ask of the
 outside world passed in: the decoded JSON body, the parsed id, the random
 id source, the clock, whether the connection to the store came up and what
 the store's Execute returned. Each handler yields the status and body it
 writes first and the steps it took, in order.
 */
module Handlers {
  import opened GoTypes
  import opened GoStrings
  import opened Models

  const StatusOK: int := 200
  const StatusCreated: int := 201
  const StatusBadRequest: int := 400
  const StatusInternalServerError: int := 500

  /** collectionName, the space every request addresses. */
  const Space: string := "todo"
  /** The secondary index on creation time that fetchTodos walks. */
  const CreatedIndex: string := "created"

  const TitleRequired: string := "The title field is requried"
  const InvalidId: string := "The id is invalid"
  const ConnectFailed: string := "Failed to establish connect to db"
  const SaveFailed: string := "Failed to save todo"
  const Created: string := "Todo created successfully"
  const UpdateFailed: string := "Failed to update todo"
  const Updated: string := "Todo updated successfully"
  const FetchFailed: string := "Failed to fetch todo"
  const DeleteFailed: string := "Failed to delete todo"
  const Deleted: string := "Todo deleted successfully"

  /** An update operator `=`: set tuple position `field` (counted from 0)
      to `arg`. */
  datatype Assign = Assign(field: nat, arg: Value)

  /** Select iterator: all keys less than or equal to the given one, in descending order. */
  datatype Iterator = IterLe

  /** A request handed to the store's Execute. */
  datatype Request =
    | Insert(space: string, tuple: seq<Value>)
    | Update(space: string, key: uint64, ops: seq<Assign>)
    | Select(space: string, index: string, key: uint64, iter: Iterator)
    | Delete(space: string, key: uint64)

  /** The steps a handler takes that reach beyond its own code. */
  datatype Effect = DecodeBody | Connect | Execute(request: Request)

  /** What Execute returned to fetchTodos. */
  datatype Response = Rows(tuples: seq<seq<Value>>) | ExecError

  /** The JSON body of a reply. The error values the handlers attach to
      some replies come from the store and are not modelled. */
  datatype Body =
    | Message(message: string)
    | MessageError(message: string)
    | MessageId(message: string, id: uint64)
    | DataList(data: seq<Todo>)
    | DecodeFailure

  /** The reply a handler writes first, the steps it took, and whether it
      carries on past that reply: after a failed connect, createTodo,
      updateTodo, deleteTodo and fetchTodos write the error and do not return. */
  datatype Outcome = Outcome(status: int, body: Body, effects: seq<Effect>, continues: bool)

  /** The body decoded and its title is not the empty string. No trimming:
      a title of blanks passes. */
  predicate HasTitle(body: Option<Todo>)
    ensures HasTitle(body) <==> body.Some? && |body.value.title| > 0
    // no trimming: a title of nothing but white space is accepted
    ensures (body.Some? && |body.value.title| > 0 && forall k :: 0 <= k < |body.value.title| ==> IsSpace(body.value.title[k]))
            ==> HasTitle(body)
  {
    body.Some? && body.value.title != ""
  }

  /** createTodo. `random` is rand.Uint32(), `now` is time.Now(). */
  function CreateTodo(body: Option<Todo>, random: uint32, now: Time, connected: bool, executed: bool): (o: Outcome)
    ensures o.status == StatusBadRequest <==> !HasTitle(body)
    ensures o.status == StatusCreated <==> HasTitle(body) && connected && executed
    ensures o.status == StatusInternalServerError <==> HasTitle(body) && !(connected && executed)
    ensures o.continues <==> HasTitle(body) && !connected
    // a rejected body is turned away before a record exists or the store is contacted
    ensures !HasTitle(body) ==> o.effects == [DecodeBody]
    ensures HasTitle(body) && connected ==>
              o.effects == [DecodeBody, Connect, Execute(Insert(Space, Pack(Todo(random, body.value.title, false, now, ""))))]
    ensures o.status == StatusCreated ==> o.body == MessageId(Created, random) && o.body.id < TwoTo32
  {
    if body.None? then Outcome(StatusBadRequest, DecodeFailure, [DecodeBody], false)
    else
      var t := body.value;
      if t.title == "" then Outcome(StatusBadRequest, Message(TitleRequired), [DecodeBody], false)
      else
        var tm := Todo(id := random, title := t.title, completed := false, createdAt := now, owner := "");
        if !connected then Outcome(StatusInternalServerError, MessageError(ConnectFailed), [DecodeBody, Connect], true)
        else
          var effects := [DecodeBody, Connect, Execute(Insert(Space, Pack(tm)))];
          if !executed then Outcome(StatusInternalServerError, MessageError(SaveFailed), effects, false)
          else Outcome(StatusCreated, MessageId(Created, tm.id), effects, false)
  }

  /** Only the title is read from a create body: an id, completion flag,
      timestamp or owner in the request has no effect. */
  lemma CreateReadsOnlyTitle(t: Todo, random: uint32, now: Time, connected: bool, executed: bool)
    ensures CreateTodo(Some(t), random, now, connected, executed)
         == CreateTodo(Some(ZeroTodo.(title := t.title)), random, now, connected, executed)
  {
  }

  /** The tuple createTodo inserts reads back, after the wire step, as the
      record it built: a 32-bit id, the request's title, not completed, no
      owner, created at the current whole second. */
  lemma CreateInsertsFreshRecord(z: Todo, t: Todo, random: uint32, now: Time)
    requires t.title != "" && now.sec >= 0
    ensures var o := CreateTodo(Some(t), random, now, true, true);
            && o.effects[2].Execute? && o.effects[2].request.Insert?
            && var u := Unpack(z, Normalize(o.effects[2].request.tuple));
            && u.err == None
            && u.rec == Todo(random, t.title, false, Time(now.sec, 0), "")
            && u.rec.id < TwoTo32
  {
    UnpackNormalizedPack(z, Todo(random, t.title, false, now, ""));
  }

  /** The two assignments updateTodo sends: title at position 1, the
      completion flag at position 2. */
  function UpdateOps(title: string, completed: bool): (ops: seq<Assign>)
    ensures |ops| == 2
    ensures forall k :: 0 <= k < |ops| ==> ops[k].field in {Position(Title), Position(Completed)}
    ensures forall k :: 0 <= k < |ops| ==> ops[k].field < TupleLength && HasKind(ops[k].arg, Layout[ops[k].field])
    ensures ops[0].field != ops[1].field
  {
    [Assign(1, Str(title)), Assign(2, Bool(completed))]
  }

  /** No operator after the k-th targets the same position. */
  predicate LastOn(ops: seq<Assign>, k: nat)
    requires k < |ops|
  {
    forall k' :: k < k' < |ops| ==> ops[k'].field != ops[k].field
  }

  /** What a list of `=` operators does to a stored tuple, each in turn. */
  function ApplyAssigns(tuple: seq<Value>, ops: seq<Assign>): (r: seq<Value>)
    requires forall k :: 0 <= k < |ops| ==> ops[k].field < |tuple|
    ensures |r| == |tuple|
    ensures forall j :: 0 <= j < |tuple| && (forall k :: 0 <= k < |ops| ==> ops[k].field != j) ==> r[j] == tuple[j]
    // the last `=` on a position decides its value
    ensures forall k :: 0 <= k < |ops| && LastOn(ops, k) ==> r[ops[k].field] == ops[k].arg
    decreases ops
  {
    if ops == [] then tuple
    else ApplyAssigns(tuple[ops[0].field := ops[0].arg], ops[1..])
  }

  /** Update scoping: on a packed record, updateTodo's operators change the
      title and completion flag and nothing else. */
  lemma UpdateScope(m: Todo, title: string, completed: bool)
    ensures ApplyAssigns(Pack(m), UpdateOps(title, completed)) == Pack(m.(title := title, completed := completed))
  {
  }

  /** A stored tuple that unpacks still unpacks after the update, to the
      same record with the new title and completion flag: id, creation time
      and owner survive. */
  lemma UpdateKeepsStoredRecord(z: Todo, tuple: seq<Value>, title: string, completed: bool)
    requires WellFormed(tuple)
    ensures var t := ApplyAssigns(tuple, UpdateOps(title, completed));
            && WellFormed(t)
            && Unpack(z, t).rec == Unpack(z, tuple).rec.(title := title, completed := completed)
  {
    var ops := UpdateOps(title, completed);
    var t := ApplyAssigns(tuple, ops);
    var t1 := tuple[1 := Str(title)];
    assert t == ApplyAssigns(t1, ops[1..]);
    assert ops[1..][1..] == [];
    assert t == t1[2 := Bool(completed)];
    assert HasKind(tuple[0], Layout[0]) && HasKind(tuple[3], Layout[3]) && HasKind(tuple[4], Layout[4]);
    assert HasKind(t[1], Layout[1]) && HasKind(t[2], Layout[2]);
  }

  /** The id from the URL: strings.TrimSpace, then strconv.ParseUint(_, 10, 64),
      whose result is passed in as `parseUint` (None is a parse error). */
  function ParseId(rawId: string, parseUint: string -> Option<uint64>): (r: Option<uint64>)
    ensures exists i :: SpaceAround(rawId, i, TrimSpace(rawId)) && r == parseUint(TrimSpace(rawId))
    ensures r == parseUint(TrimSpace(TrimSpace(rawId)))
  {
    TrimSpaceIdempotent(rawId);
    parseUint(TrimSpace(rawId))
  }

  /** updateTodo. */
  function UpdateTodo(rawId: string, parseUint: string -> Option<uint64>, body: Option<Todo>,
                      connected: bool, executed: bool): (o: Outcome)
    // a bad id is refused before the body is read or the store is contacted,
    // whatever the body holds
    ensures ParseId(rawId, parseUint).None? ==> o == Outcome(StatusBadRequest, Message(InvalidId), [], false)
    ensures o.status == StatusBadRequest <==> ParseId(rawId, parseUint).None? || !HasTitle(body)
    ensures o.status == StatusOK <==> ParseId(rawId, parseUint).Some? && HasTitle(body) && connected && executed
    ensures o.status == StatusInternalServerError <==>
              ParseId(rawId, parseUint).Some? && HasTitle(body) && !(connected && executed)
    ensures o.continues <==> ParseId(rawId, parseUint).Some? && HasTitle(body) && !connected
    ensures o.status == StatusBadRequest ==> o.effects <= [DecodeBody]
    ensures ParseId(rawId, parseUint).Some? && HasTitle(body) && connected ==>
              o.effects == [DecodeBody, Connect,
                            Execute(Update(Space, ParseId(rawId, parseUint).value,
                                           UpdateOps(body.value.title, body.value.completed)))]
  {
    var id := ParseId(rawId, parseUint);
    if id.None? then Outcome(StatusBadRequest, Message(InvalidId), [], false)
    else if body.None? then Outcome(StatusBadRequest, DecodeFailure, [DecodeBody], false)
    else
      var t := body.value;
      if t.title == "" then Outcome(StatusBadRequest, Message(TitleRequired), [DecodeBody], false)
      else if !connected then Outcome(StatusInternalServerError, MessageError(ConnectFailed), [DecodeBody, Connect], true)
      else
        var effects := [DecodeBody, Connect, Execute(Update(Space, id.value, UpdateOps(t.title, t.completed)))];
        if !executed then Outcome(StatusInternalServerError, MessageError(UpdateFailed), effects, false)
        else Outcome(StatusOK, Message(Updated), effects, false)
  }

  /** deleteTodo. */
  function DeleteTodo(rawId: string, parseUint: string -> Option<uint64>, connected: bool, executed: bool): (o: Outcome)
    ensures ParseId(rawId, parseUint).None? ==> o == Outcome(StatusBadRequest, Message(InvalidId), [], false)
    ensures o.status == StatusBadRequest <==> ParseId(rawId, parseUint).None?
    ensures o.status == StatusOK <==> ParseId(rawId, parseUint).Some? && connected && executed
    ensures o.status == StatusInternalServerError <==> ParseId(rawId, parseUint).Some? && !(connected && executed)
    ensures o.continues <==> ParseId(rawId, parseUint).Some? && !connected
    ensures ParseId(rawId, parseUint).Some? && connected ==>
              o.effects == [Connect, Execute(Delete(Space, ParseId(rawId, parseUint).value))]
  {
    var id := ParseId(rawId, parseUint);
    if id.None? then Outcome(StatusBadRequest, Message(InvalidId), [], false)
    else if !connected then Outcome(StatusInternalServerError, MessageError(ConnectFailed), [Connect], true)
    else
      var effects := [Connect, Execute(Delete(Space, id.value))];
      if !executed then Outcome(StatusInternalServerError, MessageError(DeleteFailed), effects, false)
      else Outcome(StatusOK, Message(Deleted), effects, false)
  }

  /** White space around the id makes no difference to either handler. */
  lemma IdPaddingIgnored(rawId: string, parseUint: string -> Option<uint64>, body: Option<Todo>,
                         connected: bool, executed: bool)
    ensures UpdateTodo(rawId, parseUint, body, connected, executed)
         == UpdateTodo(TrimSpace(rawId), parseUint, body, connected, executed)
    ensures DeleteTodo(rawId, parseUint, connected, executed)
         == DeleteTodo(TrimSpace(rawId), parseUint, connected, executed)
  {
    TrimSpaceIdempotent(rawId);
  }

  /** The loop in fetchTodos as written: each tuple is unpacked into a fresh
      zero record, and the record is kept when Unpack FAILED. */
  function KeepFailed(resp: seq<seq<Value>>): (r: seq<Todo>)
    ensures |r| <= |resp|
    ensures forall x :: x in r ==>
              exists t :: t in resp && Unpack(ZeroTodo, t).err.Some? && Unpack(ZeroTodo, t).rec == x
    ensures forall t :: t in resp && Unpack(ZeroTodo, t).err.Some? ==> Unpack(ZeroTodo, t).rec in r
  {
    if resp == [] then []
    else
      var u := Unpack(ZeroTodo, resp[0]);
      (if u.err != None then [u.rec] else []) + KeepFailed(resp[1..])
  }

  /** The filter fetchTodos evidently means: keep the records Unpack
      succeeded on, drop the rest. */
  function KeepDecoded(resp: seq<seq<Value>>): (r: seq<Todo>)
    ensures |r| <= |resp|
    ensures forall x :: x in r ==>
              exists t :: t in resp && Unpack(ZeroTodo, t).err.None? && Unpack(ZeroTodo, t).rec == x
  {
    if resp == [] then []
    else
      var u := Unpack(ZeroTodo, resp[0]);
      (if u.err == None then [u.rec] else []) + KeepDecoded(resp[1..])
  }

  /** Every tuple that unpacks has its record listed by the intended filter. */
  lemma {:induction false} KeepDecodedComplete(resp: seq<seq<Value>>, t: seq<Value>)
    requires t in resp && Unpack(ZeroTodo, t).err.None?
    ensures Unpack(ZeroTodo, t).rec in KeepDecoded(resp)
  {
    if t != resp[0] {
      KeepDecodedComplete(resp[1..], t);
    }
  }

  /** KeepFailed works tuple by tuple and keeps storage order: it distributes over concatenation. */
  lemma {:induction false} KeepFailedAppend(a: seq<seq<Value>>, b: seq<seq<Value>>)
    ensures KeepFailed(a + b) == KeepFailed(a) + KeepFailed(b)
  {
    if a == [] {
      assert a + b == b;
    } else {
      assert (a + b)[1..] == a[1..] + b;
      KeepFailedAppend(a[1..], b);
    }
  }

  /** Every tuple lands on exactly one side of the two filters. */
  lemma {:induction false} FiltersPartition(resp: seq<seq<Value>>)
    ensures |KeepFailed(resp)| + |KeepDecoded(resp)| == |resp|
  {
    if resp != [] {
      FiltersPartition(resp[1..]);
    }
  }

  /** As written, fetchTodos drops every tuple that unpacks. */
  lemma {:induction false} KeepFailedDropsWellFormed(resp: seq<seq<Value>>)
    requires forall k :: 0 <= k < |resp| ==> WellFormed(resp[k])
    ensures KeepFailed(resp) == []
  {
    if resp != [] {
      assert WellFormed(resp[0]);
      KeepFailedDropsWellFormed(resp[1..]);
    }
  }

  /** The tuples the store holds for a list of records, after the wire step. */
  function Stored(ms: seq<Todo>): (r: seq<seq<Value>>)
    ensures |r| == |ms|
  {
    seq(|ms|, k requires 0 <= k < |ms| => Normalize(Pack(ms[k])))
  }

  predicate WholeNonNegativeSeconds(m: Todo) {
    m.createdAt.nsec == 0 && m.createdAt.sec >= 0
  }

  /** With the intended filter, fetching the stored tuples gives back the
      records, in storage order. */
  lemma {:induction false} KeepDecodedStored(ms: seq<Todo>)
    requires forall k :: 0 <= k < |ms| ==> WholeNonNegativeSeconds(ms[k])
    ensures KeepDecoded(Stored(ms)) == ms
  {
    if ms != [] {
      RoundTrip(ZeroTodo, ms[0]);
      assert Stored(ms)[0] == Normalize(Pack(ms[0]));
      assert Stored(ms)[1..] == Stored(ms[1..]);
      KeepDecodedStored(ms[1..]);
    }
  }

  /** With the filter as written, the same stored tuples give nothing back. */
  lemma {:induction false} KeepFailedStored(ms: seq<Todo>)
    requires forall k :: 0 <= k < |ms| ==> WholeNonNegativeSeconds(ms[k])
    ensures KeepFailed(Stored(ms)) == []
  {
    if ms != [] {
      RoundTrip(ZeroTodo, ms[0]);
      assert Stored(ms)[0] == Normalize(Pack(ms[0]));
      assert Stored(ms)[1..] == Stored(ms[1..]);
      KeepFailedStored(ms[1..]);
    }
  }

  /** One record created at the epoch is stored, yet fetchTodos as written
      lists nothing, while the intended filter lists it. */
  lemma FetchLosesStoredTodo()
    ensures var m := Todo(1, "buy milk", false, Time(0, 0), "");
            && KeepFailed(Stored([m])) == []
            && KeepDecoded(Stored([m])) == [m]
  {
    var m := Todo(1, "buy milk", false, Time(0, 0), "");
    KeepFailedStored([m]);
    KeepDecodedStored([m]);
  }

  /** fetchTodos: select everything at or below the largest key of the
      creation-time index, newest first, and list what the filter keeps. */
  function FetchTodos(connected: bool, response: Response): (o: Outcome)
    // a failed connect is answered with 400, not 500, and the handler carries on
    ensures !connected ==> o.status == StatusBadRequest && o.continues && o.effects == [Connect]
    ensures connected ==> !o.continues
    ensures connected ==> o.effects == [Connect, Execute(Select(Space, CreatedIndex, MaxUint64, IterLe))]
    ensures connected ==> (o.status == StatusInternalServerError <==> response.ExecError?)
    ensures connected && response.Rows? ==>
              o.status == StatusOK && o.body.DataList? && |o.body.data| <= |response.tuples|
    ensures connected && response.Rows? ==> o.body == DataList(KeepFailed(response.tuples))
  {
    if !connected then Outcome(StatusBadRequest, MessageError(ConnectFailed), [Connect], true)
    else
      var effects := [Connect, Execute(Select(Space, CreatedIndex, MaxUint64, IterLe))];
      match response
      case ExecError => Outcome(StatusInternalServerError, MessageError(FetchFailed), effects, false)
      case Rows(tuples) => Outcome(StatusOK, DataList(KeepFailed(tuples)), effects, false)
  }
}
