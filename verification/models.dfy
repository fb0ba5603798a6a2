/**
 The positional record codec: a todo record and the five-element tuple the
 storage engine holds for it. `Pack` encodes, `Unpack` type-checks a tuple
 position by position and fills the receiver, stopping at the first bad
 position.
 */
module Models {
  import opened GoTypes

  /** A tuple element as Go's interface{} carries it, tagged by its dynamic
      type. `Other` stands for nil and for every dynamic type the codec does
      not name (other integer widths, floats, nested arrays, ...). */
  datatype Value = U64(u: uint64) | I64(i: int64) | Str(s: string) | Bool(b: bool) | Other

  /** todoModel */
  datatype Todo = Todo(id: uint64, title: string, completed: bool, createdAt: Time, owner: string)

  /** todoModel{}, Go's zero value of the record. */
  const ZeroTodo: Todo := Todo(0, "", false, ZeroTime, "")

  datatype Field = ID | Title | Completed | CreatedAt | Owner

  const TupleLength: nat := 5

  /** The tuple position that holds each field. */
  function Position(f: Field): (k: nat)
    ensures k < TupleLength
  {
    match f
    case ID => 0
    case Title => 1
    case Completed => 2
    case CreatedAt => 3
    case Owner => 4
  }

  /** No two fields share a position. */
  lemma PositionInjective(f: Field, g: Field)
    ensures Position(f) == Position(g) ==> f == g
  {
  }

  /** The dynamic type `Unpack` demands at a position. */
  datatype Kind = Uint64Kind | StringKind | BoolKind

  /** `Unpack`'s schema, position by position. */
  const Layout: seq<Kind> := [Uint64Kind, StringKind, BoolKind, Uint64Kind, StringKind]

  predicate HasKind(v: Value, k: Kind) {
    match k
    case Uint64Kind => v.U64?
    case StringKind => v.Str?
    case BoolKind => v.Bool?
  }

  /** data has the right length and every position before k has its kind. */
  predicate FitsBefore(data: seq<Value>, k: nat) {
    && |data| == TupleLength
    && forall j :: 0 <= j < k && j < TupleLength ==> HasKind(data[j], Layout[j])
  }

  /** data is a tuple `Unpack` accepts. */
  predicate WellFormed(data: seq<Value>) {
    FitsBefore(data, TupleLength)
  }

  datatype UnpackError = BadDataLength | CantConvert(field: Field)

  /** The text of the error `Unpack` returns. */
  function ErrorText(e: UnpackError): string {
    match e
    case BadDataLength => "bad data length"
    case CantConvert(ID) => "can't convert todo.ID"
    case CantConvert(Title) => "can't convert todo.Title"
    case CantConvert(Completed) => "can't convert todo.Completed"
    case CantConvert(CreatedAt) => "can't convert todo.CreatedAt"
    case CantConvert(Owner) => "can't convert todo.Owner"
  }

  /** Each error reads differently, so the text names the failing position. */
  lemma ErrorTextInjective(e1: UnpackError, e2: UnpackError)
    ensures ErrorText(e1) == ErrorText(e2) ==> e1 == e2
  {
  }

  /** The receiver after `Unpack` and the error it returned (None is nil). */
  datatype Unpacked = Unpacked(rec: Todo, err: Option<UnpackError>)

  /** Pack: the record as a tuple, CreatedAt as whole signed Unix seconds.
      The slice's capacity hint of 4 has no bearing on its contents. */
  function Pack(m: Todo): (r: seq<Value>)
    ensures |r| == TupleLength
    ensures forall k :: 0 <= k < TupleLength && k != Position(CreatedAt) ==> HasKind(r[k], Layout[k])
    ensures r[Position(CreatedAt)].I64? && r[Position(CreatedAt)].i == m.createdAt.sec
    ensures !WellFormed(r)
  {
    [U64(m.id), Str(m.title), Bool(m.completed), I64(m.createdAt.sec), Str(m.owner)]
  }

  /** The comma-ok type assertions `v.(uint64)`, `v.(string)`, `v.(bool)`:
      the value and true, or the type's zero value and false. */
  function AsUint64(v: Value): (r: (uint64, bool))
    ensures r.1 <==> v.U64?
    ensures r.0 == (if v.U64? then v.u else 0)
  {
    if v.U64? then (v.u, true) else (0, false)
  }

  function AsString(v: Value): (r: (string, bool))
    ensures r.1 <==> v.Str?
    ensures r.0 == (if v.Str? then v.s else "")
  {
    if v.Str? then (v.s, true) else ("", false)
  }

  function AsBool(v: Value): (r: (bool, bool))
    ensures r.1 <==> v.Bool?
    ensures r.0 == (v.Bool? && v.b)
  {
    if v.Bool? then (v.b, true) else (false, false)
  }

  /** Unpack, with receiver m: every field assignment before the failing
      check has already happened when the error is returned. */
  function Unpack(m: Todo, data: seq<Value>): (u: Unpacked)
    ensures u.err == Some(BadDataLength) <==> |data| != TupleLength
    ensures |data| != TupleLength ==> u.rec == m
    ensures u.err == None <==> WellFormed(data)
    ensures forall f ::
              u.err == Some(CantConvert(f))
              <==> FitsBefore(data, Position(f)) && !HasKind(data[Position(f)], Layout[Position(f)])
    // on a failed check the failing field holds its zero value (CreatedAt
    // excepted: there the assertion goes to a local), later fields are untouched
    ensures u.err == Some(CantConvert(ID)) ==> u.rec == m.(id := 0)
    ensures u.err == Some(CantConvert(Title)) ==>
              FitsBefore(data, 1) && u.rec == m.(id := data[0].u, title := "")
    ensures u.err == Some(CantConvert(Completed)) ==>
              FitsBefore(data, 2) && u.rec == m.(id := data[0].u, title := data[1].s, completed := false)
    ensures u.err == Some(CantConvert(CreatedAt)) ==>
              FitsBefore(data, 3) && u.rec == m.(id := data[0].u, title := data[1].s, completed := data[2].b)
    ensures u.err == Some(CantConvert(Owner)) ==>
              FitsBefore(data, 4) && u.rec == Todo(data[0].u, data[1].s, data[2].b, Time(ToInt64(data[3].u), 0), "")
    ensures u.err == None ==>
              u.rec == Todo(data[0].u, data[1].s, data[2].b, Time(ToInt64(data[3].u), 0), data[4].s)
  {
    if |data| != TupleLength then Unpacked(m, Some(BadDataLength))
    else
      var (id, ok0) := AsUint64(data[0]);
      var m := m.(id := id);
      if !ok0 then Unpacked(m, Some(CantConvert(ID)))
      else
        var (title, ok1) := AsString(data[1]);
        var m := m.(title := title);
        if !ok1 then Unpacked(m, Some(CantConvert(Title)))
        else
          var (completed, ok2) := AsBool(data[2]);
          var m := m.(completed := completed);
          if !ok2 then Unpacked(m, Some(CantConvert(Completed)))
          else
            var (t, ok3) := AsUint64(data[3]);
            if !ok3 then Unpacked(m, Some(CantConvert(CreatedAt)))
            else
              var m := m.(createdAt := Time(ToInt64(t), 0));
              var (owner, ok4) := AsString(data[4]);
              var m := m.(owner := owner);
              if !ok4 then Unpacked(m, Some(CantConvert(Owner)))
              else Unpacked(m, None)
  }

  /** A tuple straight from `Pack` is refused at CreatedAt: it holds a signed
      integer where `Unpack` wants an unsigned one. ID, Title and Completed
      have been copied into the receiver by then; Owner has not. */
  lemma UnpackPackFails(z: Todo, m: Todo)
    ensures Unpack(z, Pack(m)) ==
            Unpacked(z.(id := m.id, title := m.title, completed := m.completed), Some(CantConvert(CreatedAt)))
  {
  }

  /** Pack keeps whole seconds only: records that differ below the second
      pack to the same tuple. */
  lemma PackDropsNanos(m: Todo, n: Nanos)
    ensures Pack(m.(createdAt := Time(m.createdAt.sec, n))) == Pack(m)
  {
  }

  /** The wire step between `Pack` and `Unpack`: a non-negative signed integer
      comes back from the store as an unsigned one; every other value comes
      back as it went in. */
  function NormalizeValue(v: Value): Value {
    if v.I64? && v.i >= 0 then U64(v.i) else v
  }

  function Normalize(data: seq<Value>): (r: seq<Value>)
    ensures |r| == |data|
    ensures forall k :: 0 <= k < |r| ==> !(r[k].I64? && r[k].i >= 0)
  {
    seq(|data|, k requires 0 <= k < |data| => NormalizeValue(data[k]))
  }

  /** A tuple `Unpack` accepts has no signed integers, so the wire step leaves it alone. */
  lemma NormalizeKeepsWellFormed(data: seq<Value>)
    requires WellFormed(data)
    ensures Normalize(data) == data
  {
    forall k | 0 <= k < |data|
      ensures Normalize(data)[k] == data[k]
    {
      assert HasKind(data[k], Layout[k]);
    }
  }

  /** Pack, then the wire step, then Unpack, into any receiver: the record
      comes back with CreatedAt cut to whole seconds when those seconds are
      not negative; a negative timestamp stays signed and is refused. */
  lemma UnpackNormalizedPack(z: Todo, m: Todo)
    ensures m.createdAt.sec >= 0 ==>
              Unpack(z, Normalize(Pack(m))) == Unpacked(m.(createdAt := Time(m.createdAt.sec, 0)), None)
    ensures m.createdAt.sec < 0 ==>
              Unpack(z, Normalize(Pack(m))) ==
              Unpacked(z.(id := m.id, title := m.title, completed := m.completed), Some(CantConvert(CreatedAt)))
  {
    var d := Normalize(Pack(m));
    assert d[0] == U64(m.id) && d[1] == Str(m.title) && d[2] == Bool(m.completed) && d[4] == Str(m.owner);
    assert d[3] == NormalizeValue(I64(m.createdAt.sec));
  }

  /** The round trip: a record with whole, non-negative seconds survives
      Pack, the wire step and Unpack exactly. */
  lemma RoundTrip(z: Todo, m: Todo)
    requires m.createdAt.nsec == 0 && m.createdAt.sec >= 0
    ensures Unpack(z, Normalize(Pack(m))) == Unpacked(m, None)
  {
    UnpackNormalizedPack(z, m);
    assert m.(createdAt := Time(m.createdAt.sec, 0)) == m;
  }

  /** The other way round: a tuple `Unpack` accepts is re-encoded (after the
      wire step) to itself exactly when its timestamp is below 2^63; above,
      int64 wrap-around turns it into a negative signed value. */
  lemma PackUnpackedTuple(z: Todo, data: seq<Value>)
    requires WellFormed(data)
    ensures Normalize(Pack(Unpack(z, data).rec)) == data <==> data[3].u < TwoTo63
  {
    assert HasKind(data[0], Layout[0]) && HasKind(data[1], Layout[1]) && HasKind(data[2], Layout[2]);
    assert HasKind(data[3], Layout[3]) && HasKind(data[4], Layout[4]);
    var r := Normalize(Pack(Unpack(z, data).rec));
    assert r[3] == NormalizeValue(I64(ToInt64(data[3].u)));
    if data[3].u < TwoTo63 {
      assert r == data;
    } else {
      assert r[3] != data[3];
    }
  }
}
