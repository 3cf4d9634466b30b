/** The submission record: encoded text columns behind memoised getters (submission.rb, base64_service.rb). */
module SubmissionRecord {
  import opened Wrappers

  /** Base64 text, kept abstract: all that matters is that decoding inverts encoding. */
  datatype Encoded = Base64(text: string)

  function Encode(text: Option<string>): Option<Encoded> {
    match text
    case None => None
    case Some(t) => Some(Base64(t))
  }

  function Decode(column: Option<Encoded>): Option<string> {
    match column
    case None => None
    case Some(e) => Some(e.text)
  }

  lemma DecodeEncode(text: Option<string>)
    ensures Decode(Encode(text)) == text
    ensures Encode(text) == None <==> text == None
  {
  }

  /** `@decoded ||= Base64Service.decode(column)`: a nil is never remembered. */
  function Memoised(memo: Option<string>, column: Option<Encoded>): Option<string> {
    if memo.Some? then memo else Decode(column)
  }

  datatype Access = Read | Assign(value: Option<string>)

  /** One encoded attribute of a record: its column and the remembered decoded value. */
  datatype Field = Field(column: Option<Encoded>, decoded: Option<string>)

  /** Assigning replaces the column and leaves the remembered value alone. */
  function Act(f: Field, op: Access): Field {
    match op
    case Read => f.(decoded := Memoised(f.decoded, f.column))
    case Assign(v) => f.(column := Encode(v))
  }

  function Acts(f: Field, ops: seq<Access>): Field {
    if ops == [] then f else Act(Acts(f, ops[..|ops| - 1]), ops[|ops| - 1])
  }

  /** A freshly loaded attribute. */
  function Loaded(text: Option<string>): Field {
    Field(Encode(text), None)
  }

  class Attribute {
    var column: Option<Encoded>
    var decoded: Option<string>

    ghost function State(): Field
      reads this
    {
      Field(column, decoded)
    }

    /** Loading a record from the database. */
    constructor (text: Option<string>)
      ensures State() == Loaded(text)
    {
      column := Encode(text);
      decoded := None;
    }

    method Get() returns (text: Option<string>)
      modifies this`decoded
      ensures State() == Act(old(State()), Read) && text == decoded
      ensures old(decoded).Some? ==> text == old(decoded)
      ensures old(decoded).None? ==> text == if column.Some? then Some(column.value.text) else None
    {
      if decoded.None? {
        decoded := Decode(column);
      }
      text := decoded;
    }

    method Set(text: Option<string>)
      modifies this`column
      ensures State() == Act(old(State()), Assign(text)) && decoded == old(decoded)
      ensures column == if text.Some? then Some(Base64(text.value)) else None
    {
      column := Encode(text);
    }
  }

  /** The value last assigned. */
  function Current(initial: Option<string>, ops: seq<Access>): Option<string> {
    if ops == [] then initial
    else match ops[|ops| - 1]
      case Assign(v) => v
      case Read => Current(initial, ops[..|ops| - 1])
  }

  /** The value that was current at the first read that did not find nil. */
  function FirstSeen(initial: Option<string>, ops: seq<Access>): Option<string> {
    if ops == [] then None
    else
      var before := FirstSeen(initial, ops[..|ops| - 1]);
      if before.Some? || ops[|ops| - 1].Assign? then before else Current(initial, ops[..|ops| - 1])
  }

  /** Any accesses leave the last value assigned in the column and the first value seen in the memo. */
  lemma {:induction false} ActsLeave(initial: Option<string>, ops: seq<Access>)
    ensures Acts(Loaded(initial), ops) == Field(Encode(Current(initial, ops)), FirstSeen(initial, ops))
  {
    if ops != [] {
      ActsLeave(initial, ops[..|ops| - 1]);
      DecodeEncode(Current(initial, ops[..|ops| - 1]));
    }
  }

  /** The first read that did not find nil. */
  ghost predicate FirstRead(initial: Option<string>, ops: seq<Access>, i: int) {
    && 0 <= i < |ops| && ops[i].Read? && Current(initial, ops[..i]).Some?
    && forall j :: 0 <= j < i && ops[j].Read? ==> Current(initial, ops[..j]).None?
  }

  lemma FirstReadUnique(initial: Option<string>, ops: seq<Access>, i: int, j: int)
    requires FirstRead(initial, ops, i) && FirstRead(initial, ops, j)
    ensures i == j
  {
  }

  lemma {:induction false} FirstSeenIs(initial: Option<string>, ops: seq<Access>)
    ensures FirstSeen(initial, ops).None? ==> forall j :: 0 <= j < |ops| && ops[j].Read? ==>
            Current(initial, ops[..j]).None?
    ensures FirstSeen(initial, ops).Some? ==>
            exists i :: FirstRead(initial, ops, i) && Current(initial, ops[..i]) == FirstSeen(initial, ops)
  {
    if ops != [] {
      var n := |ops| - 1;
      FirstSeenIs(initial, ops[..n]);
      if FirstSeen(initial, ops[..n]).Some? {
        var i :| FirstRead(initial, ops[..n], i) && Current(initial, ops[..n][..i]) == FirstSeen(initial, ops[..n]);
        assert ops[..n][..i] == ops[..i];
        assert forall j :: 0 <= j < i ==> ops[..n][j] == ops[j] && ops[..n][..j] == ops[..j];
        assert FirstRead(initial, ops, i);
      } else {
        assert forall j :: 0 <= j < n ==> ops[..n][j] == ops[j] && ops[..n][..j] == ops[..j];
        assert FirstSeen(initial, ops).Some? ==> FirstRead(initial, ops, n);
      }
    }
  }

  /**
   The getter agrees with the column after any accesses exactly when the first value other than nil that was
   ever read, if any, is the value assigned last.
   */
  lemma GetterAgreesIff(initial: Option<string>, ops: seq<Access>)
    ensures var f := Acts(Loaded(initial), ops);
            Act(f, Read).decoded == Decode(f.column) <==>
            forall i :: FirstRead(initial, ops, i) ==> Current(initial, ops[..i]) == Current(initial, ops)
  {
    ActsLeave(initial, ops);
    FirstSeenIs(initial, ops);
    DecodeEncode(Current(initial, ops));
    if FirstSeen(initial, ops).Some? {
      var i :| FirstRead(initial, ops, i) && Current(initial, ops[..i]) == FirstSeen(initial, ops);
      forall j | FirstRead(initial, ops, j)
        ensures i == j
      {
        FirstReadUnique(initial, ops, i, j);
      }
    }
  }
}
