/** The typed cursor of a checkpoint entry: how key values are written to the file and read back,
    and how entries in the old string form are upgraded. */
module CursorCodec {
  import opened Wrappers
  import opened Base64
  import opened Decimal

  /** A key value as the driver delivers it, with the width of its integer type; Unsupported stands
      for any other type. */
  datatype Cell =
    | Nil
    | Bytes(data: seq<Octet>)
    | Bool(value: bool)
    | Int(width: nat, i: int)
    | Uint(width: nat, u: nat)
    | Text(text: string)
    | Unsupported

  /** Integers lie in the range of a type no wider than 64 bits. */
  predicate Typed(cell: Cell) {
    match cell
    case Int(_, i) => -TWO_TO_63 <= i < TWO_TO_63
    case Uint(_, u) => u < TWO_TO_64
    case _ => true
  }

  datatype KeyValue = KeyValue(kind: string, value: string)

  datatype CodecError = UnsupportedValue | UnsupportedKind | Malformed | OutsideModel

  function FormatBool(b: bool): string {
    if b then "true" else "false"
  }

  /** strconv.ParseBool. */
  function ParseBool(s: string): Option<bool> {
    if s in {"1", "t", "T", "TRUE", "true", "True"} then Some(true)
    else if s in {"0", "f", "F", "FALSE", "false", "False"} then Some(false)
    else None
  }

  /** encodeCheckpointKeyValue. */
  function EncodeValue(cell: Cell): Result<KeyValue, CodecError> {
    match cell
    case Nil => Ok(KeyValue("null", ""))
    case Bytes(data) => Ok(KeyValue("bytes", Base64.Encode(data)))
    case Bool(b) => Ok(KeyValue("bool", FormatBool(b)))
    case Int(_, i) => Ok(KeyValue("int64", FormatInt(i)))
    case Uint(_, u) => Ok(KeyValue("uint64", Format(u)))
    case Text(s) => Ok(KeyValue("string", s))
    case Unsupported => Err(UnsupportedValue)
  }

  function Checked<T>(parsed: Option<T>, cell: T -> Cell): Result<Cell, CodecError> {
    if parsed.None? then Err(Malformed) else Ok(cell(parsed.value))
  }

  /** decodeCheckpointKeyValue; times and floats are not part of this model. */
  function DecodeValue(kv: KeyValue): Result<Cell, CodecError> {
    if kv.kind == "null" then Ok(Nil)
    else if kv.kind == "bytes" then Checked(Base64.Decode(kv.value), data => Bytes(data))
    else if kv.kind == "bool" then Checked(ParseBool(kv.value), b => Bool(b))
    else if kv.kind == "int64" then Checked(ParseInt(kv.value), i => Int(64, i))
    else if kv.kind == "uint64" then Checked(ParseUint(kv.value), u => Uint(64, u))
    else if kv.kind == "string" then Ok(Text(kv.value))
    else if kv.kind == "time" || kv.kind == "float64" then Err(OutsideModel)
    else Err(UnsupportedKind)
  }

  /** The value in the widest type of its kind. */
  function Widened(cell: Cell): Cell {
    match cell
    case Int(_, i) => Int(64, i)
    case Uint(_, u) => Uint(64, u)
    case _ => cell
  }

  /** What is written can be read, and comes back as the same value in its widest type. */
  lemma DecodeEncoded(cell: Cell)
    requires Typed(cell) && !cell.Unsupported?
    ensures EncodeValue(cell).Ok? && DecodeValue(EncodeValue(cell).value) == Ok(Widened(cell))
  {
    match cell
    case Bytes(data) => DecodeEncode(data);
    case Int(_, i) => ParseFormatInt(i);
    case Uint(_, u) => ParseFormat(u);
    case _ =>
  }

  // ----- entries -----

  /** The cursor part of a checkpoint entry. */
  datatype Entry = Entry(lastKey: seq<string>, lastKeyTyped: seq<KeyValue>)

  function DecodeAll(items: seq<KeyValue>): Result<seq<Cell>, CodecError>
    decreases |items|
  {
    if items == [] then Ok([])
    else
      var before, last := DecodeAll(items[..|items| - 1]), DecodeValue(items[|items| - 1]);
      if before.Err? then before else if last.Err? then Err(last.error) else Ok(before.value + [last.value])
  }

  function EncodeAll(values: seq<Cell>): Result<seq<KeyValue>, CodecError>
    decreases |values|
  {
    if values == [] then Ok([])
    else
      var before, last := EncodeAll(values[..|values| - 1]), EncodeValue(values[|values| - 1]);
      if before.Err? then before else if last.Err? then Err(last.error) else Ok(before.value + [last.value])
  }

  function Texts(values: seq<string>): seq<Cell> {
    seq(|values|, i requires 0 <= i < |values| => Text(values[i]))
  }

  /** The cursor that an entry holds: the typed form if there is one, else the old strings. */
  function CursorOf(e: Entry): Result<seq<Cell>, CodecError> {
    if |e.lastKeyTyped| > 0 then DecodeAll(e.lastKeyTyped) else Ok(Texts(e.lastKey))
  }

  function AllWidened(values: seq<Cell>): seq<Cell> {
    seq(|values|, i requires 0 <= i < |values| => Widened(values[i]))
  }

  lemma {:induction false} EncodeAllLength(values: seq<Cell>)
    ensures EncodeAll(values).Ok? ==> |EncodeAll(values).value| == |values|
    decreases |values|
  {
    if values != [] {
      EncodeAllLength(values[..|values| - 1]);
    }
  }

  lemma {:induction false} DecodeAllEncoded(values: seq<Cell>)
    requires EncodeAll(values).Ok? && forall i :: 0 <= i < |values| ==> Typed(values[i])
    ensures DecodeAll(EncodeAll(values).value) == Ok(AllWidened(values))
    decreases |values|
  {
    if values != [] {
      var last := |values| - 1;
      DecodeAllEncoded(values[..last]);
      DecodeEncoded(values[last]);
      var items := EncodeAll(values).value;
      assert items[..|items| - 1] == EncodeAll(values[..last]).value;
      assert AllWidened(values) == AllWidened(values[..last]) + [Widened(values[last])];
    } else {
      assert AllWidened(values) == [];
    }
  }

  lemma {:induction false} FirstFailure(values: seq<Cell>, k: nat)
    requires k <= |values| && EncodeAll(values[..k]).Err?
    ensures EncodeAll(values) == EncodeAll(values[..k])
    decreases |values|
  {
    if k == |values| {
      assert values[..k] == values;
    } else {
      assert values[..|values| - 1][..k] == values[..k];
      FirstFailure(values[..|values| - 1], k);
    }
  }

  lemma {:induction false} FirstBadItem(items: seq<KeyValue>, k: nat)
    requires k <= |items| && DecodeAll(items[..k]).Err?
    ensures DecodeAll(items) == DecodeAll(items[..k])
    decreases |items|
  {
    if k == |items| {
      assert items[..k] == items;
    } else {
      assert items[..|items| - 1][..k] == items[..k];
      FirstBadItem(items[..|items| - 1], k);
    }
  }

  class TableCheckpoint {
    var lastKey: seq<string>
    var lastKeyTyped: seq<KeyValue>

    function Now(): Entry
      reads this
    {
      Entry(lastKey, lastKeyTyped)
    }

    /** SetCursorValues: an error leaves the entry as it was. */
    method SetCursorValues(values: seq<Cell>) returns (error: Option<CodecError>)
      modifies this
      ensures var encoded := EncodeAll(values);
        if encoded.Err? then error == Some(encoded.error) && Now() == old(Now())
        else error == None && Now() == Entry([], encoded.value)
      ensures error == None && (forall i :: 0 <= i < |values| ==> Typed(values[i]))
        ==> CursorOf(Now()) == Ok(AllWidened(values))
    {
      var out: seq<KeyValue> := [];
      for i := 0 to |values|
        invariant Now() == old(Now()) && EncodeAll(values[..i]) == Ok(out)
      {
        var encoded := EncodeValue(values[i]);
        assert values[..i + 1][..i] == values[..i];
        if encoded.Err? {
          assert EncodeAll(values[..i + 1]) == Err(encoded.error);
          FirstFailure(values, i + 1);
          return Some(encoded.error);
        }
        out := out + [encoded.value];
      }
      assert values[..|values|] == values;
      lastKey, lastKeyTyped := [], out;
      if forall i :: 0 <= i < |values| ==> Typed(values[i]) {
        SetThenRead(values);
      }
      return None;
    }

    /** CursorValues. */
    method CursorValues() returns (values: Result<seq<Cell>, CodecError>)
      ensures values == CursorOf(Now())
    {
      if |lastKeyTyped| > 0 {
        var out: seq<Cell> := [];
        for i := 0 to |lastKeyTyped|
          invariant DecodeAll(lastKeyTyped[..i]) == Ok(out)
        {
          var decoded := DecodeValue(lastKeyTyped[i]);
          assert lastKeyTyped[..i + 1][..i] == lastKeyTyped[..i];
          if decoded.Err? {
            assert DecodeAll(lastKeyTyped[..i + 1]) == Err(decoded.error);
            FirstBadItem(lastKeyTyped, i + 1);
            return Err(decoded.error);
          }
          out := out + [decoded.value];
        }
        assert lastKeyTyped[..|lastKeyTyped|] == lastKeyTyped;
        return Ok(out);
      }
      return Ok(Texts(lastKey));
    }
  }

  lemma {:induction false} EncodeAllOkIff(values: seq<Cell>)
    ensures EncodeAll(values).Ok? <==> forall i :: 0 <= i < |values| ==> !values[i].Unsupported?
    decreases |values|
  {
    if values != [] {
      var last := |values| - 1;
      EncodeAllOkIff(values[..last]);
      assert forall i :: 0 <= i < last ==> values[..last][i] == values[i];
    }
  }

  /** A cursor can be set exactly when all its values are supported, and then reads back as
      itself, widened, whatever old strings stand beside it; without values there is no cursor. */
  lemma SetThenRead(values: seq<Cell>)
    requires forall i :: 0 <= i < |values| ==> Typed(values[i])
    ensures EncodeAll(values).Ok? <==> forall i :: 0 <= i < |values| ==> !values[i].Unsupported?
    ensures EncodeAll(values).Ok? ==> CursorOf(Entry([], EncodeAll(values).value)) == Ok(AllWidened(values))
    ensures EncodeAll(values).Ok? && values != [] ==>
      forall strings :: CursorOf(Entry(strings, EncodeAll(values).value)) == Ok(AllWidened(values))
  {
    EncodeAllOkIff(values);
    if EncodeAll(values).Ok? {
      EncodeAllLength(values);
      DecodeAllEncoded(values);
      assert Texts([]) == [];
    }
  }

  // ----- upgrading old files -----

  function LegacyStrings(values: seq<string>): seq<KeyValue> {
    seq(|values|, i requires 0 <= i < |values| => KeyValue("string", values[i]))
  }

  function Upgraded(e: Entry): Entry {
    if |e.lastKeyTyped| == 0 && |e.lastKey| > 0 then e.(lastKeyTyped := LegacyStrings(e.lastKey)) else e
  }

  /** The loop of LoadDataCheckpoint over the entries, in an arbitrary order. */
  method UpgradeEntries(tables: map<string, Entry>) returns (upgraded: map<string, Entry>)
    ensures upgraded.Keys == tables.Keys && forall t :: t in tables ==> upgraded[t] == Upgraded(tables[t])
  {
    upgraded := tables;
    var rest := tables.Keys;
    while rest != {}
      invariant rest <= tables.Keys && upgraded.Keys == tables.Keys
      invariant forall t :: t in tables ==> upgraded[t] == if t in rest then tables[t] else Upgraded(tables[t])
    {
      var t :| t in rest;
      var entry := upgraded[t];
      if |entry.lastKeyTyped| == 0 && |entry.lastKey| > 0 {
        upgraded := upgraded[t := entry.(lastKeyTyped := LegacyStrings(entry.lastKey))];
      }
      rest := rest - {t};
    }
  }

  lemma {:induction false} LegacyDecodes(values: seq<string>)
    ensures DecodeAll(LegacyStrings(values)) == Ok(Texts(values))
    decreases |values|
  {
    if values != [] {
      var last := |values| - 1;
      LegacyDecodes(values[..last]);
      assert LegacyStrings(values)[..last] == LegacyStrings(values[..last]);
      assert Texts(values) == Texts(values[..last]) + [Text(values[last])];
    } else {
      assert Texts(values) == [];
    }
  }

  /** The upgrade changes no cursor and keeps the old strings, and a second upgrade changes nothing. */
  lemma UpgradeKeepsCursor(e: Entry)
    ensures CursorOf(Upgraded(e)) == CursorOf(e) && Upgraded(Upgraded(e)) == Upgraded(e)
    ensures Upgraded(e).lastKey == e.lastKey
  {
    LegacyDecodes(e.lastKey);
  }
}
