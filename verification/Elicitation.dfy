/** Elicitation answers: the content map a handler returns is turned into the RPC union, field by field, and a
    received RPC result is turned back into a content map. */
module Elicitation {
  import opened Wrappers

  /** What a Go `any` can hold here. `NilStrings` is a `[]string` without a backing array, `Other` any type
      that has no case of its own, known by what `%v` prints for it. */
  datatype Value =
    | Nil
    | Bool(b: bool)
    | Float(f: real)
    | Int(i: int)
    | Str(s: string)
    | NilStrings
    | Strings(ss: seq<string>)
    | List(items: seq<Value>)
    | Other(printed: string)

  /** The RPC struct of optional members; a nil array is an absent one. */
  datatype Field = Field(boolean: Option<bool>, double: Option<real>, str: Option<string>, strs: Option<seq<string>>)

  const BLANK := Field(None, None, None, None)

  type Content = map<string, Value>

  // a nil pointer is `None`
  type Wire = map<string, Option<Field>>

  /** Conversion of a Go `int` to `float64`, whatever it rounds to. */
  type ToFloat = int -> real

  // ---------- reference ----------

  /** The strings of a list, in order. */
  function StringsOf(items: seq<Value>): seq<string> {
    if items == [] then []
    else
      var last := items[|items| - 1];
      StringsOf(items[..|items| - 1]) + if last.Str? then [last.s] else []
  }

  /** How a value comes back from a conversion to the union and back; nothing when its key is lost. */
  function Normal(v: Value, toFloat: ToFloat): Option<Value> {
    match v
    case Int(i) => Some(Float(toFloat(i)))
    case List(items) => Some(Strings(StringsOf(items)))
    case Other(printed) => Some(Str(printed))
    case NilStrings => None
    case _ => Some(v)
  }

  ghost predicate Kept(v: Value) {
    v.Nil? || v.Bool? || v.Float? || v.Str? || v.Strings?
  }

  function NormalContent(content: Content, toFloat: ToFloat): Content {
    map k | k in content && Normal(content[k], toFloat).Some? :: Normal(content[k], toFloat).value
  }

  /** What arrives under a key: a value of a kept kind as it was, an int as the float it converts to, a list
      as its strings, a value of any other type as its print, and a nil string list not at all. */
  ghost predicate Arrives(v: Value, content: Content, k: string, toFloat: ToFloat) {
    && (Kept(v) ==> k in content && content[k] == v)
    && (v.Int? ==> k in content && content[k] == Float(toFloat(v.i)))
    && (v.List? ==> k in content && content[k].Strings? && exists at :: Picks(StringParts(v.items), content[k].ss, at))
    && (v.Other? ==> k in content && content[k] == Str(v.printed))
    && (v.NilStrings? ==> k !in content)
  }

  lemma NormalArrives(content: Content, k: string, toFloat: ToFloat)
    requires k in content
    ensures Arrives(content[k], NormalContent(content, toFloat), k, toFloat)
  {
    if content[k].List? {
      var at := StringsInOrder(content[k].items);
    }
  }

  /** What a union field stands for: the first member that is set, in the order the reader tries them. */
  function Meaning(c: Option<Field>): Option<Value> {
    match c
    case None => Some(Nil)
    case Some(Field(Some(b), _, _, _)) => Some(Bool(b))
    case Some(Field(_, Some(d), _, _)) => Some(Float(d))
    case Some(Field(_, _, Some(s), _)) => Some(Str(s))
    case Some(Field(_, _, _, Some(ss))) => Some(Strings(ss))
    case Some(_) => None
  }

  /** At most one member of the union is set. */
  predicate OneMember(c: Option<Field>) {
    c.Some? ==>
      (if c.value.boolean.Some? then 1 else 0) + (if c.value.double.Some? then 1 else 0)
      + (if c.value.str.Some? then 1 else 0) + (if c.value.strs.Some? then 1 else 0) <= 1
  }

  // ---------- the code ----------

  /** `toRPCContent`: the field stands for the normal form of the value, is nil exactly for a nil value, and
      never has two members set. */
  method ToRPCContent(v: Value, toFloat: ToFloat) returns (c: Option<Field>)
    ensures Meaning(c) == Normal(v, toFloat)
    ensures c == None <==> v == Nil
    ensures OneMember(c)
  {
    if v == Nil {
      return None;
    }
    var field := BLANK;
    match v {
      case Bool(b) => field := field.(boolean := Some(b));
      case Float(f) => field := field.(double := Some(f));
      case Int(i) => field := field.(double := Some(toFloat(i)));
      case Str(s) => field := field.(str := Some(s));
      case NilStrings =>
      case Strings(ss) => field := field.(strs := Some(ss));
      case List(items) =>
        var strs: seq<string> := [];
        for i := 0 to |items|
          invariant strs == StringsOf(items[..i])
        {
          assert items[..i + 1][..i] == items[..i];
          if items[i].Str? {
            strs := strs + [items[i].s];
          }
        }
        assert items[..|items|] == items;
        field := field.(strs := Some(strs));
      case Other(printed) => field := field.(str := Some(printed));
    }
    c := Some(field);
  }

  datatype Reply = Reply(requestId: string, action: string, content: Wire)

  /** What the elicitation handler does: it returns an action with content, or an error. */
  type Handler = () -> Result<(string, Content), string>

  /** `handleElicitationRequest`: silent without a handler, a bare cancel when the handler fails, otherwise the
      handler's action with every one of its keys, each standing for the normal form of its value. The result
      does not depend on the order in which the map is walked. */
  method HandleElicitationRequest(handler: Option<Handler>, requestId: string, toFloat: ToFloat)
    returns (reply: Option<Reply>)
    ensures reply.None? <==> handler.None?
    ensures handler.Some? ==> reply.value.requestId == requestId
    ensures handler.Some? && handler.value().Err? ==> reply.value.action == "cancel" && reply.value.content == map[]
    ensures handler.Some? && handler.value().Ok? ==>
      && reply.value.action == handler.value().value.0
      && Carries(reply.value.content, handler.value().value.1, toFloat)
  {
    if handler.None? {
      return None;
    }
    var result := handler.value();
    if result.Err? {
      return Some(Reply(requestId, "cancel", map[]));
    }
    var content := result.value.1;
    var rpcContent: Wire := map[];
    var todo := content.Keys;
    while todo != {}
      invariant todo <= content.Keys
      invariant rpcContent.Keys == content.Keys - todo
      invariant forall k :: k in rpcContent ==> Meaning(rpcContent[k]) == Normal(content[k], toFloat)
      decreases todo
    {
      var k :| k in todo;
      var c := ToRPCContent(content[k], toFloat);
      rpcContent := rpcContent[k := c];
      todo := todo - {k};
    }
    reply := Some(Reply(requestId, result.value.0, rpcContent));
  }

  /** The wire content has exactly the keys of `content`, with fields that stand for its values. */
  ghost predicate Carries(wire: Wire, content: Content, toFloat: ToFloat) {
    && wire.Keys == content.Keys
    && forall k :: k in wire ==> Meaning(wire[k]) == Normal(content[k], toFloat)
  }

  /** `fromRPCElicitationResult` on the content of a non-nil result: a key is kept exactly when its field is
      nil or has a member set. */
  method FromRPCContent(wire: Wire) returns (content: Content)
    ensures forall k :: k in content <==> k in wire && Meaning(wire[k]).Some?
    ensures forall k :: k in content ==> content[k] == Meaning(wire[k]).value
  {
    content := map[];
    var todo := wire.Keys;
    while todo != {}
      invariant todo <= wire.Keys
      invariant forall k :: k in content <==> k in wire && k !in todo && Meaning(wire[k]).Some?
      invariant forall k :: k in content ==> content[k] == Meaning(wire[k]).value
      decreases todo
    {
      var k :| k in todo;
      var v := wire[k];
      todo := todo - {k};
      if v.None? {
        content := content[k := Nil];
        continue;
      }
      var c := v.value;
      if c.boolean.Some? {
        content := content[k := Bool(c.boolean.value)];
      } else if c.double.Some? {
        content := content[k := Float(c.double.value)];
      } else if c.str.Some? {
        content := content[k := Str(c.str.value)];
      } else if c.strs.Some? {
        content := content[k := Strings(c.strs.value)];
      }
    }
  }

  /** An answer sent by one handler and read back by a caller: the content that arrives is the normal form of
      the content that left, an error arrives as a cancel without content, and without a handler nothing
      arrives. */
  method Answer(handler: Option<Handler>, requestId: string, toFloat: ToFloat)
    returns (result: Option<(string, Content)>)
    ensures handler.None? ==> result == None
    ensures handler.Some? && handler.value().Err? ==> result == Some(("cancel", map[]))
    ensures handler.Some? && handler.value().Ok? ==>
      result == Some((handler.value().value.0, NormalContent(handler.value().value.1, toFloat)))
    ensures handler.Some? && handler.value().Ok? ==>
      forall k :: k in handler.value().value.1 ==> Arrives(handler.value().value.1[k], result.value.1, k, toFloat)
  {
    var reply := HandleElicitationRequest(handler, requestId, toFloat);
    if reply.None? {
      return None;
    }
    var content := FromRPCContent(reply.value.content);
    result := Some((reply.value.action, content));
    if handler.value().Ok? {
      var sent := handler.value().value.1;
      assert content == NormalContent(sent, toFloat);
      forall k | k in sent ensures Arrives(sent[k], content, k, toFloat) {
        NormalArrives(sent, k, toFloat);
      }
    } else {
      assert content == map[];
    }
  }

  // ---------- properties ----------

  /** A normal form is already normal, so a second trip changes nothing, whatever ints convert to. */
  lemma SecondTripChangesNothing(content: Content, toFloat: ToFloat)
    ensures NormalContent(NormalContent(content, toFloat), toFloat) == NormalContent(content, toFloat)
  {
    var once := NormalContent(content, toFloat);
    forall k | k in once
      ensures Normal(once[k], toFloat) == Some(once[k])
    {
      assert once[k] == Normal(content[k], toFloat).value;
    }
  }

  /** A trip keeps the content exactly when every value is nil, a bool, a float, a string or a non-nil string
      list. */
  lemma UnchangedExactly(content: Content, toFloat: ToFloat)
    ensures NormalContent(content, toFloat) == content <==> forall k :: k in content ==> Kept(content[k])
  {
    var once := NormalContent(content, toFloat);
    if once == content {
      forall k | k in content
        ensures Kept(content[k])
      {
        assert k in once && once[k] == Normal(content[k], toFloat).value;
      }
    }
  }

  /** The one way to lose a key is a nil string list. */
  lemma KeysLostExactly(content: Content, toFloat: ToFloat, k: string)
    ensures k in NormalContent(content, toFloat) <==> k in content && content[k] != NilStrings
  {
    if k in content {
      assert Normal(content[k], toFloat).None? <==> content[k] == NilStrings;
    }
  }

  function StringParts(items: seq<Value>): seq<seq<string>> {
    seq(|items|, i requires 0 <= i < |items| => if items[i].Str? then [items[i].s] else [])
  }

  /** The strings of a mixed list: each result comes from one string of the list, in list order, and no
      string of the list is passed over. */
  lemma {:induction false} StringsInOrder(items: seq<Value>) returns (at: seq<nat>)
    ensures Picks(StringParts(items), StringsOf(items), at)
  {
    if items == [] {
      at := [];
    } else {
      var last := |items| - 1;
      var before := StringsInOrder(items[..last]);
      var part := if items[last].Str? then [items[last].s] else [];
      assert StringParts(items) == StringParts(items[..last]) + [part];
      PicksAppend(StringParts(items[..last]), StringsOf(items[..last]), before, part);
      at := if part == [] then before else before + [last];
    }
  }
}
