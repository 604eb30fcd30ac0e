/**
 * The slice of Express the route handler touches: the response object with
 * `status` and `json`, and how `json` serialises an object whose members may
 * be `undefined`.
 */
module Express {

  datatype JsValue = Str(s: string) | Undefined

  /** An object literal, members in source order. */
  type JsObject = seq<(string, JsValue)>

  /** `JSON.stringify` of an object literal: members whose value is `undefined` are dropped. */
  function Serialize(obj: JsObject): (wire: seq<(string, string)>)
    ensures |wire| <= |obj|
    ensures forall k, v :: (k, v) in wire <==> (k, Str(v)) in obj
    ensures |obj| == 1 ==> wire == if obj[0].1.Str? then [(obj[0].0, obj[0].1.s)] else []
  {
    if obj == [] then []
    else
      var rest := Serialize(obj[1..]);
      assert forall m :: m in obj <==> m == obj[0] || m in obj[1..];
      match obj[0].1
      case Str(v) => [(obj[0].0, v)] + rest
      case Undefined => rest
  }

  /** Serialisation keeps the members' order: the wire of a concatenation is the concatenation of the wires. */
  lemma {:induction false} SerializeAppend(a: JsObject, b: JsObject)
    ensures Serialize(a + b) == Serialize(a) + Serialize(b)
    decreases |a|
  {
    if a != [] {
      assert (a + b)[0] == a[0] && (a + b)[1..] == a[1..] + b;
      SerializeAppend(a[1..], b);
      var head := if a[0].1.Str? then [(a[0].0, a[0].1.s)] else [];
      assert Serialize(a + b) == head + Serialize(a[1..] + b);
      assert Serialize(a) == head + Serialize(a[1..]);
    } else {
      assert a + b == b;
    }
  }

  /** The member names that reach the wire, in order. */
  function Keys(wire: seq<(string, string)>): (keys: seq<string>)
    ensures |keys| == |wire|
    ensures forall i :: 0 <= i < |wire| ==> keys[i] == wire[i].0
  {
    if wire == [] then [] else [wire[0].0] + Keys(wire[1..])
  }

  /** One response put on the wire: its status code and body. */
  datatype Sent = Sent(status: nat, body: JsObject)

  /** An Express `res`. */
  class Res {
    var statusCode: nat
    var sent: seq<Sent>

    /** A fresh response: status 200, nothing sent yet. */
    constructor ()
      ensures statusCode == 200 && sent == []
    {
      statusCode, sent := 200, [];
    }

    /** `res.status(code)`, which returns `res` itself so that calls chain. */
    method Status(code: nat) returns (self: Res)
      modifies this
      ensures self == this
      ensures statusCode == code && sent == old(sent)
    {
      statusCode := code;
      self := this;
    }

    /** `res.json(body)`: sends `body` with the current status code. */
    method Json(body: JsObject)
      modifies this
      ensures statusCode == old(statusCode)
      ensures sent == old(sent) + [Sent(statusCode, body)]
    {
      sent := sent + [Sent(statusCode, body)];
    }
  }
}
