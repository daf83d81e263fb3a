/** JSON as the writer's event sequence: each call of the writer is a token. A tree is
    emitted as tokens, and a recursive-descent parser reads them back. */
module Json {
  import opened Wrappers

  datatype Token =
    | StartObject | EndObject | StartArray | EndArray
    | Str(s: string) | Num(n: int)

  datatype Json =
    | JStr(s: string)
    | JNum(n: int)
    | JArr(items: seq<Json>)
    | JObj(members: seq<Member>)

  datatype Member = Member(key: string, value: Json)

  function Emit(j: Json): seq<Token>
    decreases j, 1
  {
    match j
    case JStr(s) => [Str(s)]
    case JNum(n) => [Num(n)]
    case JArr(items) => [StartArray] + EmitItems(items) + [EndArray]
    case JObj(members) => [StartObject] + EmitMembers(members) + [EndObject]
  }

  function EmitItems(items: seq<Json>): seq<Token>
    decreases items, 0
  {
    if items == [] then [] else Emit(items[0]) + EmitItems(items[1..])
  }

  /** A member is its key, written as a string, and then its value. */
  function EmitMembers(members: seq<Member>): seq<Token>
    decreases members, 0
  {
    if members == [] then []
    else [Str(members[0].key)] + Emit(members[0].value) + EmitMembers(members[1..])
  }

  /** The first value in `ts`, and what follows it. */
  function ParseValue(ts: seq<Token>): (r: Option<(Json, seq<Token>)>)
    ensures r.Some? ==> |r.value.1| < |ts|
    decreases |ts|, 0
  {
    if ts == [] then None
    else match ts[0]
      case Str(s) => Some((JStr(s), ts[1..]))
      case Num(n) => Some((JNum(n), ts[1..]))
      case StartArray =>
        (match ParseItems(ts[1..])
         case None => None
         case Some((items, rest)) => Some((JArr(items), rest)))
      case StartObject =>
        (match ParseMembers(ts[1..])
         case None => None
         case Some((members, rest)) => Some((JObj(members), rest)))
      case _ => None
  }

  function ParseItems(ts: seq<Token>): (r: Option<(seq<Json>, seq<Token>)>)
    ensures r.Some? ==> |r.value.1| < |ts|
    decreases |ts|, 1
  {
    if ts == [] then None
    else if ts[0] == EndArray then Some(([], ts[1..]))
    else match ParseValue(ts)
      case None => None
      case Some((first, after)) =>
        match ParseItems(after)
        case None => None
        case Some((others, rest)) => Some(([first] + others, rest))
  }

  function ParseMembers(ts: seq<Token>): (r: Option<(seq<Member>, seq<Token>)>)
    ensures r.Some? ==> |r.value.1| < |ts|
    decreases |ts|, 1
  {
    if ts == [] then None
    else if ts[0] == EndObject then Some(([], ts[1..]))
    else if !ts[0].Str? then None
    else match ParseValue(ts[1..])
      case None => None
      case Some((first, after)) =>
        match ParseMembers(after)
        case None => None
        case Some((others, rest)) => Some(([Member(ts[0].s, first)] + others, rest))
  }

  /** A document is one value and nothing else. */
  function Parse(ts: seq<Token>): Option<Json> {
    match ParseValue(ts)
    case Some((j, rest)) => if rest == [] then Some(j) else None
    case None => None
  }

  // ------------------------------------------------------------- round trips

  lemma ParseOpening(after: seq<Token>)
    ensures ParseItems(after).Some? ==>
      ParseValue([StartArray] + after) == Some((JArr(ParseItems(after).value.0), ParseItems(after).value.1))
    ensures ParseMembers(after).Some? ==>
      ParseValue([StartObject] + after) == Some((JObj(ParseMembers(after).value.0), ParseMembers(after).value.1))
  {
    assert ([StartArray] + after)[1..] == after;
    assert ([StartObject] + after)[1..] == after;
  }

  lemma {:induction false} ParseEmit(j: Json, rest: seq<Token>)
    ensures ParseValue(Emit(j) + rest) == Some((j, rest))
    decreases j, 1
  {
    match j {
      case JStr(s) =>
      case JNum(n) =>
      case JArr(items) =>
        ParseEmitItems(items, rest);
        var after := EmitItems(items) + [EndArray] + rest;
        assert Emit(j) + rest == [StartArray] + after;
        ParseOpening(after);
      case JObj(members) =>
        ParseEmitMembers(members, rest);
        var after := EmitMembers(members) + [EndObject] + rest;
        assert Emit(j) + rest == [StartObject] + after;
        ParseOpening(after);
    }
  }

  lemma {:induction false} ParseEmitItems(items: seq<Json>, rest: seq<Token>)
    ensures ParseItems(EmitItems(items) + [EndArray] + rest) == Some((items, rest))
    decreases items, 0
  {
    var ts := EmitItems(items) + [EndArray] + rest;
    if items == [] {
      assert ts == [EndArray] + rest;
    } else {
      var after := EmitItems(items[1..]) + [EndArray] + rest;
      assert ts == Emit(items[0]) + after;
      ParseEmit(items[0], after);
      ParseEmitItems(items[1..], rest);
      EmitStarts(items[0]);
      assert ts[0] == Emit(items[0])[0];
      assert items == [items[0]] + items[1..];
    }
  }

  lemma {:induction false} ParseEmitMembers(members: seq<Member>, rest: seq<Token>)
    ensures ParseMembers(EmitMembers(members) + [EndObject] + rest) == Some((members, rest))
    decreases members, 0
  {
    var ts := EmitMembers(members) + [EndObject] + rest;
    if members == [] {
      assert ts == [EndObject] + rest;
    } else {
      var after := EmitMembers(members[1..]) + [EndObject] + rest;
      assert ts == [Str(members[0].key)] + (Emit(members[0].value) + after);
      ParseEmit(members[0].value, after);
      ParseEmitMembers(members[1..], rest);
      assert ts[1..] == Emit(members[0].value) + after;
      assert members == [members[0]] + members[1..];
    }
  }

  lemma EmitStarts(j: Json)
    ensures Emit(j) != [] && Emit(j)[0] != EndArray && Emit(j)[0] != EndObject
  {
  }

  lemma {:induction false} ParseSound(ts: seq<Token>)
    ensures ParseValue(ts).Some? ==>
      ts == Emit(ParseValue(ts).value.0) + ParseValue(ts).value.1
    decreases |ts|, 0
  {
    if ts != [] && ts[0] == StartArray {
      ParseItemsSound(ts[1..]);
    } else if ts != [] && ts[0] == StartObject {
      ParseMembersSound(ts[1..]);
    }
  }

  lemma {:induction false} ParseItemsSound(ts: seq<Token>)
    ensures ParseItems(ts).Some? ==>
      ts == EmitItems(ParseItems(ts).value.0) + [EndArray] + ParseItems(ts).value.1
    decreases |ts|, 1
  {
    if ts != [] && ts[0] != EndArray {
      ParseSound(ts);
      if ParseValue(ts).Some? {
        ParseItemsSound(ParseValue(ts).value.1);
      }
    }
  }

  lemma {:induction false} ParseMembersSound(ts: seq<Token>)
    ensures ParseMembers(ts).Some? ==>
      ts == EmitMembers(ParseMembers(ts).value.0) + [EndObject] + ParseMembers(ts).value.1
    decreases |ts|, 1
  {
    if ts != [] && ts[0].Str? {
      ParseSound(ts[1..]);
      if ParseValue(ts[1..]).Some? {
        ParseMembersSound(ParseValue(ts[1..]).value.1);
      }
    }
  }

  /** A token sequence is a balanced, properly keyed document exactly when it is what
      some tree emits, and then that tree is the only one. */
  lemma ParseIsInverseOfEmit(ts: seq<Token>, j: Json)
    ensures Parse(ts) == Some(j) <==> ts == Emit(j)
  {
    ParseSound(ts);
    ParseEmit(j, []);
    assert Emit(j) + [] == Emit(j);
  }

  // -------------------------------------------------- emitting piece by piece

  lemma {:induction false} EmitItemsAppend(items: seq<Json>, last: Json)
    ensures EmitItems(items + [last]) == EmitItems(items) + Emit(last)
  {
    if items == [] {
      assert EmitItems([last]) == Emit(last) + EmitItems([]);
    } else {
      EmitItemsAppend(items[1..], last);
      assert (items + [last])[1..] == items[1..] + [last];
    }
  }

  lemma {:induction false} EmitMembersAppend(members: seq<Member>, last: Member)
    ensures EmitMembers(members + [last]) == EmitMembers(members) + [Str(last.key)] + Emit(last.value)
  {
    if members == [] {
      assert EmitMembers([last]) == [Str(last.key)] + Emit(last.value) + EmitMembers([]);
    } else {
      EmitMembersAppend(members[1..], last);
      assert (members + [last])[1..] == members[1..] + [last];
    }
  }

  lemma {:induction false} EmitMembersConcat(a: seq<Member>, b: seq<Member>)
    ensures EmitMembers(a + b) == EmitMembers(a) + EmitMembers(b)
  {
    if b == [] {
      assert a + b == a;
    } else {
      hide Emit;
      var n := |b| - 1;
      EmitMembersConcat(a, b[..n]);
      EmitMembersAppend(a + b[..n], b[n]);
      EmitMembersAppend(b[..n], b[n]);
      assert a + b == a + b[..n] + [b[n]] && b == b[..n] + [b[n]];
    }
  }

  lemma EmitOne(a: Member)
    ensures EmitMembers([a]) == [Str(a.key)] + Emit(a.value)
  {
    EmitMembersAppend([], a);
    assert [] + [a] == [a];
  }

  lemma EmitTwo(a: Member, b: Member)
    ensures EmitMembers([a, b]) == [Str(a.key)] + Emit(a.value) + [Str(b.key)] + Emit(b.value)
  {
    EmitOne(a);
    EmitMembersAppend([a], b);
    assert [a] + [b] == [a, b];
  }

  lemma EmitNumbers(k: string, m: int, l: string, n: int)
    ensures EmitMembers([Member(k, JNum(m)), Member(l, JNum(n))]) == [Str(k), Num(m), Str(l), Num(n)]
  {
    EmitTwo(Member(k, JNum(m)), Member(l, JNum(n)));
  }

  lemma EmitStrings(k: string, s: string, l: string, t: string)
    ensures EmitMembers([Member(k, JStr(s)), Member(l, JStr(t))]) == [Str(k), Str(s), Str(l), Str(t)]
  {
    EmitTwo(Member(k, JStr(s)), Member(l, JStr(t)));
  }

  lemma EmitArray(k: string, items: seq<Json>)
    ensures EmitMembers([Member(k, JArr(items))]) == [Str(k), StartArray] + EmitItems(items) + [EndArray]
  {
    EmitOne(Member(k, JArr(items)));
  }

  lemma EmitObject(members: seq<Member>)
    ensures Emit(JObj(members)) == [StartObject] + EmitMembers(members) + [EndObject]
  {
  }
}
