/** The registry of in-flight requests (src/services/cancel.ts): one
 *  AbortController per request key; a newer request with an equal key aborts
 *  and replaces the older one. */
module Cancel {
  import opened Wrappers
  import opened Axios

  /** How `Array.prototype.join` renders a part: `undefined` becomes "". */
  function Part(text: Option<string>): string {
    text.GetOr("")
  }

  /** `[method, url, JSON.stringify(params), JSON.stringify(data)].join('&')`. */
  function RequestKey(verb: string, url: Option<string>, params: Option<string>, data: Option<string>): string {
    verb + "&" + Part(url) + "&" + Part(params) + "&" + Part(data)
  }

  function KeyOf(config: RequestConfig): string {
    RequestKey(config.verb, config.url, config.params, config.data)
  }

  /** Splits `s` at the first `c`. */
  function SplitFirst(s: string, c: char): Option<(string, string)>
  {
    if s == [] then None
    else if s[0] == c then Some(([], s[1..]))
    else match SplitFirst(s[1..], c)
      case None => None
      case Some((a, b)) => Some(([s[0]] + a, b))
  }

  /** Reads a request key back into its four parts, splitting at the first
   *  three '&'. */
  function ParseKey(key: string): Option<(string, string, string, string)>
  {
    match SplitFirst(key, '&')
    case None => None
    case Some((m, r1)) =>
      match SplitFirst(r1, '&')
      case None => None
      case Some((u, r2)) =>
        match SplitFirst(r2, '&')
        case None => None
        case Some((p, d)) => Some((m, u, p, d))
  }

  lemma {:induction false} SplitFirstJoin(a: string, c: char, b: string)
    requires c !in a
    ensures SplitFirst(a + [c] + b, c) == Some((a, b))
  {
    if a == [] {
      assert a + [c] + b == [c] + b;
    } else {
      assert (a + [c] + b)[1..] == a[1..] + [c] + b;
      SplitFirstJoin(a[1..], c, b);
      assert [a[0]] + a[1..] == a;
    }
  }

  /** The key determines the request's parts whenever the verb, the url and
   *  the params text contain no '&'; equal keys then mean equal parts. */
  lemma KeyRoundTrip(verb: string, url: Option<string>, params: Option<string>, data: Option<string>)
    requires '&' !in verb && '&' !in Part(url) && '&' !in Part(params)
    ensures ParseKey(RequestKey(verb, url, params, data)) == Some((verb, Part(url), Part(params), Part(data)))
  {
    var u, p, d := Part(url), Part(params), Part(data);
    assert RequestKey(verb, url, params, data) == verb + ['&'] + (u + "&" + p + "&" + d);
    SplitFirstJoin(verb, '&', u + "&" + p + "&" + d);
    assert u + "&" + p + "&" + d == u + ['&'] + (p + "&" + d);
    SplitFirstJoin(u, '&', p + "&" + d);
    assert p + "&" + d == p + ['&'] + d;
    SplitFirstJoin(p, '&', d);
  }

  class CancelRequest {
    var pending: map<string, Controller>

    /** Every stored controller belongs to a live request, and no controller is
     *  stored under two keys. */
    ghost predicate Valid()
      reads this, pending.Values
    {
      && (forall k :: k in pending ==> !pending[k].aborted)
      && (forall k, j :: k in pending && j in pending && k != j ==> pending[k] != pending[j])
    }

    constructor ()
      ensures Valid() && pending == map[]
    {
      pending := map[];
    }

    /** The controller stored under `key`, as a frame. */
    function Slot(key: string): set<Controller>
      reads this
    {
      if key in pending then {pending[key]} else {}
    }

    /** `getPendingCount()`: the number of distinct keys in the map. */
    function GetPendingCount(): (n: nat)
      reads this
      ensures n == |pending.Keys|
    {
      |pending|
    }

    /** Aborts and deletes the entry for the config's key, if there is one. */
    method RemovePending(config: RequestConfig)
      requires Valid()
      modifies this, Slot(KeyOf(config))
      ensures Valid()
      ensures KeyOf(config) in old(pending) ==>
                old(pending)[KeyOf(config)].aborted && pending == old(pending) - {KeyOf(config)}
      ensures KeyOf(config) !in old(pending) ==> pending == old(pending)
      ensures GetPendingCount() == old(GetPendingCount()) - (if KeyOf(config) in old(pending) then 1 else 0)
    {
      var key := KeyOf(config);
      if key in pending {
        var controller := pending[key];
        controller.Abort();
        pending := pending - {key};
      }
    }

    /** Aborts any older request with the same key, then stores a fresh
     *  controller under the key and hands its signal to the config. */
    method AddPending(config: RequestConfig)
      requires Valid()
      modifies this, config`signal, Slot(KeyOf(config))
      ensures Valid()
      ensures config.signal.Some? && fresh(config.signal.value) && !config.signal.value.aborted
      ensures pending == old(pending)[KeyOf(config) := config.signal.value]
      ensures KeyOf(config) in old(pending) ==> old(pending)[KeyOf(config)].aborted
      ensures GetPendingCount() == old(GetPendingCount()) + (if KeyOf(config) in old(pending) then 0 else 1)
    {
      RemovePending(config);
      var key := KeyOf(config);
      var controller := new Controller();
      assert Valid() && controller !in pending.Values;
      config.signal := Some(controller);
      pending := pending[key := controller];
    }

    /** Aborts every stored controller and empties the map. */
    method ClearPending()
      requires Valid()
      modifies this, pending.Values
      ensures Valid() && pending == map[] && GetPendingCount() == 0
      ensures forall c :: c in old(pending).Values ==> c.aborted
    {
      var rest := pending.Keys;
      while rest != {}
        invariant rest <= pending.Keys
        invariant pending == old(pending)
        invariant forall k :: k in pending && k !in rest ==> pending[k].aborted
        decreases rest
      {
        var k :| k in rest;
        pending[k].Abort();
        rest := rest - {k};
      }
      pending := map[];
    }
  }
}
