/**
 * Browser-local key/value storage as the dashboards use it. A stored string is
 * either the JSON text of an array of messages (`Thread`) or any other text
 * (`Text`); JSON parsing itself is not modelled, only its outcome.
 */
module LocalStore {
  import opened Options

  /** One chat message as stored: `{ from, text, at }`, `at` in epoch milliseconds. */
  datatype Message = Message(from: string, text: string, at: int)

  /** A stored value. `Thread(msgs)` stands for `JSON.stringify(msgs)`; `Text(s)` for
      any text that is not such an array (a number, `'true'`, corrupt JSON, ...). */
  datatype Value = Thread(msgs: seq<Message>) | Text(s: string)

  /** `localStorage.getItem(key)`: `None` plays the part of `null`. */
  function Lookup(items: map<string, Value>, key: string): (r: Option<Value>)
    ensures r.Some? <==> key in items
    ensures r.Some? ==> r.value == items[key]
  {
    if key in items then Some(items[key]) else None
  }

  /** `JSON.parse(getItem(key) || '[]')` read as a message list: a missing or empty
      value reads as the empty list, a message array as itself, and any other text
      makes `JSON.parse` throw, here `None`. */
  function ParseThread(v: Option<Value>): (r: Option<seq<Message>>)
    ensures r.None? <==> v.Some? && v.value.Text? && v.value.s != ""
    ensures v.Some? && v.value.Thread? ==> r == Some(v.value.msgs)
    ensures r.Some? && !(v.Some? && v.value.Thread?) ==> r.value == []
  {
    match v
    case None => Some([])
    case Some(Thread(msgs)) => Some(msgs)
    case Some(Text(s)) => if s == "" then Some([]) else None
  }

  /** The store shared by every dashboard script of one origin. */
  class Store {
    var items: map<string, Value>

    constructor (initial: map<string, Value>)
      ensures items == initial
    {
      items := initial;
    }

    /** `localStorage.setItem(key, v)`. */
    method SetItem(key: string, v: Value)
      modifies this
      ensures items == old(items)[key := v]
    {
      items := items[key := v];
    }

    /** `localStorage.removeItem(key)`. */
    method RemoveItem(key: string)
      modifies this
      ensures items == old(items) - {key}
    {
      items := items - {key};
    }
  }

  /** What one writes as a thread reads back unchanged. */
  lemma ThreadRoundTrip(items: map<string, Value>, key: string, msgs: seq<Message>)
    ensures ParseThread(Lookup(items[key := Thread(msgs)], key)) == Some(msgs)
  {
  }
}
