/** The assistant service's fee-structure normaliser: the fee data of an
    agency arrives either as a list of fee entries or as one dictionary,
    and is turned into a list of fee items. Values are JSON values; the
    text `str(v)` gives a value is a parameter. */
module FeeItems {
  import opened Wrappers
  import opened Strings

  /** A JSON value as the fee data loader produces it; an object keeps its
      keys in insertion order, each key once. */
  datatype Json =
    | JNull
    | JBool(b: bool)
    | JNumber(n: real)
    | JString(s: string)
    | JArray(items: seq<Json>)
    | JObject(fields: seq<(string, Json)>)

  /** A fee item; `JNull` stands for a field left as None. The fields carry
      the values as found, before the data model checks their types. */
  datatype FeeItem = FeeItem(
    kind: Json,
    jmd: Json,
    jmdRange: Json,
    days: Json,
    office: Json,
    note: Json)

  /** `d.get(key)`: the value under `key`, or None when it is missing. */
  function Get(fields: seq<(string, Json)>, key: string): (v: Json)
    ensures v != JNull ==> exists i :: 0 <= i < |fields| && fields[i] == (key, v)
    ensures (forall i :: 0 <= i < |fields| ==> fields[i].0 != key) ==> v == JNull
  {
    if fields == [] then JNull
    else if fields[0].0 == key then fields[0].1
    else Get(fields[1..], key)
  }

  /** Python truthiness: None, False, zero and empty containers are false. */
  predicate Truthy(v: Json)
  {
    match v
    case JNull => false
    case JBool(b) => b
    case JNumber(n) => n != 0.0
    case JString(s) => s != []
    case JArray(items) => items != []
    case JObject(fields) => fields != []
  }

  // ---------------------------------------------------------------------
  // Key labels
  // ---------------------------------------------------------------------

  /** The character at `i` of `s.title()` on ASCII text: a letter is
      upper-cased when it starts a run of letters and lower-cased otherwise;
      other characters stay. */
  function TitleChar(s: string, i: nat): char
    requires i < |s|
  {
    if i == 0 || !IsAsciiLetter(s[i - 1]) then UpperChar(s[i]) else LowerChar(s[i])
  }

  /** `s.title()` on ASCII text. */
  function Title(s: string): (r: string)
    ensures |r| == |s|
    ensures forall i :: 0 <= i < |s| ==> r[i] == TitleChar(s, i)
  {
    seq(|s|, i requires 0 <= i < |s| => TitleChar(s, i))
  }

  /** Changing case keeps a character a letter or a non-letter. */
  lemma CaseKeepsLetters(c: char)
    ensures IsAsciiLetter(UpperChar(c)) == IsAsciiLetter(c)
    ensures IsAsciiLetter(LowerChar(c)) == IsAsciiLetter(c)
  {
  }

  /** One character of a title-cased text is already title-cased. */
  lemma TitleAt(s: string, i: nat)
    requires i < |s|
    ensures Title(Title(s))[i] == Title(s)[i]
  {
    var t := Title(s);
    if i > 0 {
      CaseKeepsLetters(s[i - 1]);
      assert IsAsciiLetter(t[i - 1]) == IsAsciiLetter(s[i - 1]);
    }
  }

  /** Title-casing twice is title-casing once. */
  lemma TitleIdempotent(s: string)
    ensures Title(Title(s)) == Title(s)
  {
    forall i | 0 <= i < |s|
      ensures Title(Title(s))[i] == Title(s)[i]
    {
      TitleAt(s, i);
    }
  }

  function Underscore(c: char): char
  {
    if c == '_' then ' ' else c
  }

  /** `k.replace('_', ' ').title()`: the label an extra key is shown
      under. */
  function KeyLabel(k: string): (r: string)
    ensures |r| == |k|
    ensures forall i :: 0 <= i < |r| ==> r[i] != '_'
  {
    Title(seq(|k|, i requires 0 <= i < |k| => Underscore(k[i])))
  }

  // ---------------------------------------------------------------------
  // Extra descriptive keys
  // ---------------------------------------------------------------------

  /** The keys the dictionary form maps onto fee item fields; every other
      key is descriptive. */
  predicate Skipped(k: string)
  {
    k == "jmd" || k == "jmd_range" || k == "note" || k == "type"
  }

  /** `f"{label}: {v}"` for one descriptive key. */
  function ExtraPart(k: string, v: Json, render: Json -> string): (r: string)
    ensures r != []
  {
    KeyLabel(k) + ": " + render(v)
  }

  /** The parts one key contributes: none for a skipped key. */
  function PartsOf(kv: (string, Json), render: Json -> string): seq<string>
  {
    if Skipped(kv.0) then [] else [ExtraPart(kv.0, kv.1, render)]
  }

  /** `extra_parts` after the loop over the first `|fields|` items. */
  function ExtraParts(fields: seq<(string, Json)>, render: Json -> string): seq<string>
  {
    if fields == [] then []
    else ExtraParts(fields[..|fields| - 1], render) + PartsOf(fields[|fields| - 1], render)
  }

  /** Every descriptive part comes from a key outside {jmd, jmd_range,
      note, type}. */
  lemma {:induction false} ExtraPartsSound(fields: seq<(string, Json)>, render: Json -> string)
    ensures forall p :: p in ExtraParts(fields, render) ==>
      exists i :: 0 <= i < |fields| && !Skipped(fields[i].0) && p == ExtraPart(fields[i].0, fields[i].1, render)
  {
    if fields != [] {
      var init := fields[..|fields| - 1];
      ExtraPartsSound(init, render);
      forall p | p in ExtraParts(init, render)
        ensures exists i :: 0 <= i < |fields| && !Skipped(fields[i].0) && p == ExtraPart(fields[i].0, fields[i].1, render)
      {
        var i :| 0 <= i < |init| && !Skipped(init[i].0) && p == ExtraPart(init[i].0, init[i].1, render);
        assert init[i] == fields[i];
      }
    }
  }

  /** Every key outside {jmd, jmd_range, note, type} contributes its
      part. */
  lemma {:induction false} ExtraPartsComplete(fields: seq<(string, Json)>, render: Json -> string)
    ensures forall i :: 0 <= i < |fields| && !Skipped(fields[i].0) ==>
      ExtraPart(fields[i].0, fields[i].1, render) in ExtraParts(fields, render)
  {
    if fields != [] {
      var init := fields[..|fields| - 1];
      ExtraPartsComplete(init, render);
      forall i | 0 <= i < |init| && !Skipped(fields[i].0)
        ensures ExtraPart(fields[i].0, fields[i].1, render) in ExtraParts(fields, render)
      {
        assert init[i] == fields[i];
      }
    }
  }

  /** There are no descriptive parts exactly when every key is one of
      jmd, jmd_range, note and type. */
  lemma {:induction false} ExtraPartsEmpty(fields: seq<(string, Json)>, render: Json -> string)
    ensures ExtraParts(fields, render) == [] <==> forall i :: 0 <= i < |fields| ==> Skipped(fields[i].0)
  {
    if fields != [] {
      var init := fields[..|fields| - 1];
      ExtraPartsEmpty(init, render);
      if forall i :: 0 <= i < |fields| ==> Skipped(fields[i].0) {
        forall i | 0 <= i < |init|
          ensures Skipped(init[i].0)
        {
          assert init[i] == fields[i];
        }
      }
    }
  }

  /** No descriptive part is empty. */
  lemma {:induction false} ExtraPartsNonEmpty(fields: seq<(string, Json)>, render: Json -> string)
    ensures forall j :: 0 <= j < |ExtraParts(fields, render)| ==> ExtraParts(fields, render)[j] != []
  {
    if fields != [] {
      ExtraPartsNonEmpty(fields[..|fields| - 1], render);
    }
  }

  // ---------------------------------------------------------------------
  // The combined note
  // ---------------------------------------------------------------------

  /** `note or ""` where the note must be text: a falsy note reads as the
      empty string, any other non-text note is an error. */
  function NoteText(note: Json): (r: Option<string>)
    ensures r.Some? <==> !Truthy(note) || note.JString?
    ensures r.Some? && r.value != [] ==> note == JString(r.value)
  {
    if !Truthy(note) then Some("")
    else if note.JString? then Some(note.s)
    else None
  }

  /** `combined_note`: the note, then "; ", then the descriptive parts
      joined by "; "; the separator only when both sides are there. */
  function CombinedNote(note: string, extras: seq<string>): string
  {
    if extras == [] then note
    else (if note != [] then note + "; " else []) + Join(extras, "; ")
  }

  /** The combined note is the note, if any, and the descriptive parts, all
      joined by "; ". */
  lemma CombinedNoteIsJoin(note: string, extras: seq<string>)
    ensures CombinedNote(note, extras) == Join((if note != [] then [note] else []) + extras, "; ")
  {
    if note != [] && extras != [] {
      var all := [note] + extras;
      assert all[1..] == extras;
    } else if note == [] {
      assert [] + extras == extras;
    }
  }

  /** The combined note is empty exactly when the note is and there are no
      descriptive parts. */
  lemma CombinedNoteEmpty(note: string, extras: seq<string>)
    requires forall i :: 0 <= i < |extras| ==> extras[i] != []
    ensures CombinedNote(note, extras) == [] <==> note == [] && extras == []
  {
    JoinEmpty(extras, "; ");
  }

  // ---------------------------------------------------------------------
  // The normaliser
  // ---------------------------------------------------------------------

  /** The fee item of one list entry: type, jmd, days, office and note as
      found, no range. */
  function EntryItem(fields: seq<(string, Json)>): (item: FeeItem)
  {
    FeeItem(Get(fields, "type"), Get(fields, "jmd"), JNull, Get(fields, "days"), Get(fields, "office"), Get(fields, "note"))
  }

  /** The fee item of the dictionary form. A note that is neither falsy nor
      text cannot be joined to the parts (TypeError) or, with no parts,
      fails the note field's type (ValidationError). */
  function DictItem(fields: seq<(string, Json)>, render: Json -> string): Result<FeeItem>
  {
    var extras := ExtraParts(fields, render);
    match NoteText(Get(fields, "note"))
    case None => Err(if extras != [] then TypeError else ValidationError)
    case Some(note) =>
      var combined := CombinedNote(note, extras);
      Ok(FeeItem(Get(fields, "type"), Get(fields, "jmd"), Get(fields, "jmd_range"), JNull, JNull,
                 if combined == [] then JNull else JString(combined)))
  }

  predicate AllObjects(entries: seq<Json>)
  {
    forall i :: 0 <= i < |entries| ==> entries[i].JObject?
  }

  /** What `_parse_fee_items(raw)` returns. A list gives one item per
      entry, in order, and fails with AttributeError on an entry that is not
      a dictionary; a dictionary gives one item; anything else gives none. */
  function ParsedFeeItems(raw: Json, render: Json -> string): (r: Result<seq<FeeItem>>)
    ensures raw.JArray? ==> (r.Err? <==> !AllObjects(raw.items))
    ensures raw.JArray? && r.Ok? ==> |r.value| == |raw.items| && forall i :: 0 <= i < |raw.items| ==>
      var f := raw.items[i].fields;
      && r.value[i].kind == Get(f, "type") && r.value[i].jmd == Get(f, "jmd")
      && r.value[i].days == Get(f, "days") && r.value[i].office == Get(f, "office")
      && r.value[i].note == Get(f, "note") && r.value[i].jmdRange == JNull
    ensures raw.JObject? && r.Ok? ==> (|r.value| == 1 && DictItem(raw.fields, render) == Ok(r.value[0])
      && r.value[0].kind == Get(raw.fields, "type") && r.value[0].jmd == Get(raw.fields, "jmd")
      && r.value[0].jmdRange == Get(raw.fields, "jmd_range"))
    ensures raw.JObject? ==> (r.Ok? <==> !Truthy(Get(raw.fields, "note")) || Get(raw.fields, "note").JString?)
    ensures !raw.JArray? && !raw.JObject? ==> r == Ok([])
  {
    match raw
    case JArray(entries) =>
      if AllObjects(entries) then Ok(seq(|entries|, i requires 0 <= i < |entries| && entries[i].JObject? => EntryItem(entries[i].fields)))
      else Err(AttributeError)
    case JObject(fields) =>
      (match DictItem(fields, render)
       case Ok(item) => Ok([item])
       case Err(e) => Err(e))
    case _ => Ok([])
  }

  /** The dictionary form's note: the note text and the descriptive parts
      joined by "; ", and None when both are empty. */
  lemma DictItemNote(fields: seq<(string, Json)>, render: Json -> string)
    requires DictItem(fields, render).Ok?
    ensures var note := NoteText(Get(fields, "note")).value;
      var extras := ExtraParts(fields, render);
      var item := DictItem(fields, render).value;
      && (item.note == JNull <==> note == [] && forall i :: 0 <= i < |fields| ==> Skipped(fields[i].0))
      && (item.note != JNull ==> item.note == JString(Join((if note != [] then [note] else []) + extras, "; ")))
  {
    var note := NoteText(Get(fields, "note")).value;
    var extras := ExtraParts(fields, render);
    ExtraPartsEmpty(fields, render);
    ExtraPartsNonEmpty(fields, render);
    CombinedNoteEmpty(note, extras);
    CombinedNoteIsJoin(note, extras);
  }

  /** A dictionary whose note is neither falsy nor text is rejected. */
  lemma DictRejectsNonTextNote(fields: seq<(string, Json)>, render: Json -> string)
    requires Truthy(Get(fields, "note")) && !Get(fields, "note").JString?
    ensures ParsedFeeItems(JObject(fields), render).Err?
  {
  }

  /** The list branch of `_parse_fee_items`: one item per entry, failing
      on the first entry that is not a dictionary. */
  method ParseEntries(entries: seq<Json>) returns (r: Result<seq<FeeItem>>)
    ensures r == ParsedFeeItems(JArray(entries), _ => [])
  {
    var items: seq<FeeItem> := [];
    var i := 0;
    while i < |entries|
      invariant i <= |entries|
      invariant AllObjects(entries[..i])
      invariant |items| == i
      invariant forall j :: 0 <= j < i ==> items[j] == EntryItem(entries[j].fields)
    {
      if !entries[i].JObject? {
        return Err(AttributeError);
      }
      items := items + [EntryItem(entries[i].fields)];
      i := i + 1;
    }
    assert entries[..i] == entries;
    assert items == seq(|entries|, j requires 0 <= j < |entries| && entries[j].JObject? => EntryItem(entries[j].fields));
    return Ok(items);
  }

  /** The loop collecting `extra_parts` from the items of a dictionary. */
  method CollectExtraParts(fields: seq<(string, Json)>, render: Json -> string) returns (extraParts: seq<string>)
    ensures extraParts == ExtraParts(fields, render)
    ensures |extraParts| <= |fields|
  {
    extraParts := [];
    var k := 0;
    while k < |fields|
      invariant k <= |fields|
      invariant extraParts == ExtraParts(fields[..k], render)
      invariant |extraParts| <= k
    {
      var (key, v) := fields[k];
      assert fields[..k + 1][..k] == fields[..k];
      if !Skipped(key) {
        extraParts := extraParts + [ExtraPart(key, v, render)];
      }
      k := k + 1;
    }
    assert fields[..k] == fields;
  }

  /** The dictionary branch of `_parse_fee_items`. */
  method ParseFeeDict(fields: seq<(string, Json)>, render: Json -> string) returns (r: Result<FeeItem>)
    ensures r == DictItem(fields, render)
  {
    var extraParts := CollectExtraParts(fields, render);
    var note := Get(fields, "note");
    if Truthy(note) && !note.JString? {
      return Err(if extraParts != [] then TypeError else ValidationError);
    }
    var combined := if Truthy(note) then note.s else "";
    if extraParts != [] {
      combined := (if combined != [] then combined + "; " else []) + Join(extraParts, "; ");
    }
    return Ok(FeeItem(Get(fields, "type"), Get(fields, "jmd"), Get(fields, "jmd_range"), JNull, JNull,
                      if combined == [] then JNull else JString(combined)));
  }

  /** `_parse_fee_items(raw)`. */
  method ParseFeeItems(raw: Json, render: Json -> string) returns (r: Result<seq<FeeItem>>)
    ensures r == ParsedFeeItems(raw, render)
  {
    match raw {
      case JArray(entries) =>
        r := ParseEntries(entries);
      case JObject(fields) =>
        var item := ParseFeeDict(fields, render);
        r := if item.Ok? then Ok([item.value]) else Err(item.error);
      case _ =>
        r := Ok([]);
    }
  }
}
