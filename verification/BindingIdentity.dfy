/** Bindings have no name: the broker lists them, and deletes them by a properties key. How that key
    is made, when it names one routing key only, and that deletion removes exactly the declared
    binding. */
module BindingIdentity {
  import opened Types
  import opened Admission

  // ---------------------------------------------------------------- the escaped routing key

  const ESCAPE := "%7E"

  /** strings.ReplaceAll(key, "~", "%7E"). */
  function Escaped(s: string): string {
    if s == [] then [] else (if s[0] == '~' then ESCAPE else [s[0]]) + Escaped(s[1..])
  }

  /** Percent-decoding of "%7E" (section 2.1 of RFC 3986), left to right. */
  function Unescaped(s: string): string {
    if s == [] then []
    else if ESCAPE <= s then ['~'] + Unescaped(s[3..])
    else [s[0]] + Unescaped(s[1..])
  }

  /** "%7E" occurs in s. */
  predicate Escapes(s: string) {
    s != [] && (ESCAPE <= s || Escapes(s[1..]))
  }

  lemma {:induction false} EscapedHasNoTilde(s: string)
    ensures '~' !in Escaped(s)
    ensures Escaped(s) == [] <==> s == []
  {
    if s != [] { EscapedHasNoTilde(s[1..]); }
  }

  /** Only a key that starts with "%7E" or with "~" is escaped to something that starts with "%7E". */
  lemma EscapedStart(s: string)
    requires s != [] && s[0] != '~'
    ensures ESCAPE <= Escaped(s) <==> ESCAPE <= s
  {
    var e := Escaped(s);
    assert e == [s[0]] + Escaped(s[1..]);
    if |s| >= 2 {
      var f := Escaped(s[1..]);
      assert s[1] != '~' ==> f == [s[1]] + Escaped(s[2..]);
      assert s[1] == '~' ==> f == ESCAPE + Escaped(s[2..]);
      assert e[1] == f[0];
      if |s| >= 3 && s[1] != '~' {
        var g := Escaped(s[2..]);
        assert s[2..] == [s[2]] + s[3..];
        assert g == (if s[2] == '~' then ESCAPE else [s[2]]) + Escaped(s[2..][1..]);
        assert e[2] == g[0];
      } else if s[1] != '~' {
        assert Escaped(s[2..]) == [];
      }
    } else {
      assert s[1..] == [] && Escaped(s[1..]) == [];
    }
  }

  lemma {:induction false} UnescapedIsNoLonger(s: string)
    ensures |Unescaped(Escaped(s))| <= |s|
    ensures Escapes(s) ==> |Unescaped(Escaped(s))| < |s|
    ensures !Escapes(s) ==> Unescaped(Escaped(s)) == s
    decreases |s|
  {
    if s == [] {
    } else if s[0] == '~' {
      UnescapedIsNoLonger(s[1..]);
      assert Escaped(s)[3..] == Escaped(s[1..]);
    } else {
      EscapedStart(s);
      if ESCAPE <= s {
        assert s[1..][1..] == s[2..] && s[2..][1..] == s[3..];
        assert Escaped(s[2..]) == [s[2]] + Escaped(s[3..]);
        assert Escaped(s[1..]) == [s[1]] + Escaped(s[2..]);
        assert Escaped(s)[3..] == Escaped(s[3..]);
        UnescapedIsNoLonger(s[3..]);
      } else {
        assert Escaped(s)[1..] == Escaped(s[1..]);
        UnescapedIsNoLonger(s[1..]);
      }
    }
  }

  /** Unescaping recovers exactly the routing keys that do not themselves contain "%7E". */
  lemma UnescapeRecovers(s: string)
    ensures Unescaped(Escaped(s)) == s <==> !Escapes(s)
  {
    UnescapedIsNoLonger(s);
  }

  // ---------------------------------------------------------------- the properties key

  /** GeneratePropertiesKey. */
  function PropertiesKey(b: BindingSpec): string {
    if b.routingKey == "" then "~"
    else if b.arguments.None? then Escaped(b.routingKey)
    else ""
  }

  /** The key of an argument-free binding. */
  function PlainKey(routingKey: string): string {
    if routingKey == "" then "~" else Escaped(routingKey)
  }

  /** "~" is the key of the empty routing key only; other keys contain no "~". */
  lemma PlainKeyShape(routingKey: string)
    ensures PlainKey(routingKey) == "~" <==> routingKey == ""
    ensures routingKey != "" ==> '~' !in PlainKey(routingKey)
  {
    EscapedHasNoTilde(routingKey);
  }

  lemma {:induction false} EscapedConcat(s: string, t: string)
    ensures Escaped(s + t) == Escaped(s) + Escaped(t)
    decreases |s|
  {
    if s == [] {
      assert s + t == t;
    } else {
      assert (s + t)[1..] == s[1..] + t;
      EscapedConcat(s[1..], t);
    }
  }

  lemma {:induction false} EscapedSame(s: string)
    requires '~' !in s
    ensures Escaped(s) == s
    decreases |s|
  {
    if s != [] { EscapedSame(s[1..]); }
  }

  lemma {:induction false} EscapesAt(s: string, i: nat)
    requires i + 3 <= |s| && s[i..i+3] == ESCAPE
    ensures Escapes(s)
    decreases i
  {
    if i == 0 {
      assert ESCAPE <= s;
    } else {
      assert s[1..][i-1..i+2] == s[i..i+3];
      EscapesAt(s[1..], i - 1);
    }
  }

  lemma {:induction false} EscapesWhere(s: string) returns (i: nat)
    requires Escapes(s)
    ensures i + 3 <= |s| && s[i..i+3] == ESCAPE
    decreases |s|
  {
    if ESCAPE <= s {
      i := 0;
    } else {
      i := EscapesWhere(s[1..]);
      assert s[1..][i..i+3] == s[i+1..i+4];
      i := i + 1;
    }
  }

  /** An escaped "~" shows up as "%7E". */
  lemma TildeBecomesEscape(s: string)
    requires '~' in s
    ensures Escapes(Escaped(s))
  {
    var i :| 0 <= i < |s| && s[i] == '~';
    assert s == s[..i] + (['~'] + s[i+1..]);
    EscapedConcat(s[..i], ['~'] + s[i+1..]);
    EscapedConcat(['~'], s[i+1..]);
    assert Escaped(['~']) == ESCAPE;
    var j := |Escaped(s[..i])|;
    assert Escaped(s)[j..j+3] == ESCAPE;
    EscapesAt(Escaped(s), j);
  }

  /** A routing key with "~" or "%7E" shares its properties key with another routing key. */
  lemma AmbiguousTwin(s: string) returns (t: string)
    requires '~' in s || Escapes(s)
    ensures t != s && PlainKey(t) == PlainKey(s)
  {
    if '~' in s {
      var i :| 0 <= i < |s| && s[i] == '~';
      assert s == s[..i] + (['~'] + s[i+1..]);
      t := s[..i] + (ESCAPE + s[i+1..]);
      EscapedConcat(s[..i], ['~'] + s[i+1..]);
      EscapedConcat(['~'], s[i+1..]);
      EscapedConcat(s[..i], ESCAPE + s[i+1..]);
      EscapedConcat(ESCAPE, s[i+1..]);
      EscapedSame(ESCAPE);
      assert Escaped(['~']) == ESCAPE;
      assert |t| == |s| + 2;
    } else {
      var i := EscapesWhere(s);
      assert s == s[..i] + (ESCAPE + s[i+3..]);
      t := s[..i] + (['~'] + s[i+3..]);
      EscapedConcat(s[..i], ['~'] + s[i+3..]);
      EscapedConcat(['~'], s[i+3..]);
      EscapedConcat(s[..i], ESCAPE + s[i+3..]);
      EscapedConcat(ESCAPE, s[i+3..]);
      EscapedSame(ESCAPE);
      assert Escaped(['~']) == ESCAPE;
      assert |t| == |s| - 2;
    }
  }

  lemma PlainlyUnambiguous(s: string, t: string)
    requires '~' !in s && !Escapes(s) && PlainKey(t) == PlainKey(s)
    ensures t == s
  {
    PlainKeyShape(s);
    PlainKeyShape(t);
    EscapedSame(s);
    if t != "" && '~' in t {
      TildeBecomesEscape(t);
    } else {
      EscapedSame(t);
    }
  }

  /** The properties key names its routing key alone exactly when that key contains neither "~"
      nor "%7E". */
  lemma KeyNamesOneRoutingKey(s: string)
    ensures (forall t :: PlainKey(t) == PlainKey(s) ==> t == s) <==> ('~' !in s && !Escapes(s))
  {
    if '~' in s || Escapes(s) {
      var t := AmbiguousTwin(s);
    } else {
      forall t | PlainKey(t) == PlainKey(s) ensures t == s { PlainlyUnambiguous(s, t); }
    }
  }

  // ---------------------------------------------------------------- deletion

  datatype BindingInfo = BindingInfo(
    vhost: string, source: string, destination: string, destinationType: string,
    routingKey: string, arguments: Arguments, propertiesKey: string)

  predicate Between(x: BindingInfo, b: BindingSpec) {
    x.vhost == b.vhost && x.source == b.source && x.destination == b.destination && x.destinationType == b.destinationType
  }

  /** The binding that DeclareFunc declares for b. */
  predicate Declares(b: BindingSpec, x: BindingInfo) {
    Between(x, b) && x.routingKey == b.routingKey && x.arguments == ArgumentsOf(b.arguments)
  }

  /** The broker's hash of arguments, as it appears in a key. It may map several arguments to one text. */
  type Hash = Arguments -> string

  ghost predicate HashShape(h: Hash) {
    forall a: Arguments :: a != map[] ==> h(a) != "" && '~' !in h(a)
  }

  /** The properties key the broker gives a binding: the escaped routing key, followed, if there are
      arguments, by "~" and their hash. */
  function BrokerKey(h: Hash, routingKey: string, arguments: Arguments): string {
    if arguments == map[] then PlainKey(routingKey) else Escaped(routingKey) + "~" + h(arguments)
  }

  /** What the broker keeps true of its bindings: between two end points there is one per routing
      key and arguments, and each has the broker's key. Keys need not be unique. */
  ghost predicate WellKeyed(bs: set<BindingInfo>, h: Hash) {
    && (forall x, y :: x in bs && y in bs && x.vhost == y.vhost && x.source == y.source && x.destination == y.destination
                       && x.destinationType == y.destinationType && x.routingKey == y.routingKey && x.arguments == y.arguments ==>
          x == y)
    && (forall x :: x in bs ==> x.propertiesKey == BrokerKey(h, x.routingKey, x.arguments))
  }

  /** Another binding between the end points goes by the key under which b's binding is deleted. */
  ghost predicate Collides(bs: set<BindingInfo>, b: BindingSpec, y: BindingInfo) {
    && y in bs && Between(y, b) && !Declares(b, y)
    && if b.arguments.None? then y.propertiesKey == PropertiesKey(b)
       else exists x :: x in bs && Declares(b, x) && x.propertiesKey == y.propertiesKey
  }

  /** A listing of the bindings between b's end points, in the broker's order. */
  ghost predicate Listing(bs: set<BindingInfo>, b: BindingSpec, listed: seq<BindingInfo>) {
    forall x :: x in listed <==> x in bs && Between(x, b)
  }

  /** The broker call did what it should, failed, or did it but looked failed. */
  datatype Call = Done | Refused | DoneUnseen

  class BindingReconciler {
    var bindings: set<BindingInfo>

    /** findBindingInfo: the last listed binding with the routing key and the arguments. */
    method FindBindingInfo(b: BindingSpec, listed: seq<BindingInfo>) returns (info: Option<BindingInfo>)
      requires b.arguments.Some? && forall x :: x in listed ==> Between(x, b)
      ensures info.None? <==> forall x :: x in listed ==> !Declares(b, x)
      ensures info.Some? ==> info.value in listed && Declares(b, info.value)
    {
      info := None;
      for i := 0 to |listed|
        invariant info.None? <==> forall j :: 0 <= j < i ==> !Declares(b, listed[j])
        invariant info.Some? ==> info.value in listed && Declares(b, info.value)
      {
        if b.routingKey == listed[i].routingKey && listed[i].arguments == b.arguments.value {
          info := Some(listed[i]);
        }
      }
    }

    /** DeleteBinding: the broker removes what lies between the end points under the key. */
    method DeleteBinding(b: BindingSpec, key: string, call: Call) returns (ok: bool)
      modifies this
      ensures ok <==> call.Done?
      ensures bindings == if call.Refused? then old(bindings)
                          else set x | x in old(bindings) && !(Between(x, b) && x.propertiesKey == key)
    {
      if !call.Refused? {
        bindings := set x | x in bindings && !(Between(x, b) && x.propertiesKey == key);
      }
      ok := call.Done?;
    }

    /** DeleteFunc. When it succeeds the declared binding is gone, whatever the spec and the broker;
        only bindings under its key can go with it; and exactly the declared binding goes if and
        only if no other binding between the end points has that key. */
    method DeleteFunc(b: BindingSpec, listed: seq<BindingInfo>, listable: bool, call: Call, ghost h: Hash) returns (ok: bool)
      requires WellKeyed(bindings, h) && Listing(bindings, b, listed)
      modifies this
      ensures bindings <= old(bindings)
      ensures ok ==> forall x :: x in bindings ==> !Declares(b, x)
      ensures forall x :: x in old(bindings) && x !in bindings ==> Declares(b, x) || Collides(old(bindings), b, x)
      ensures ok ==> (bindings == (set x | x in old(bindings) && !Declares(b, x)) <==> !exists y :: Collides(old(bindings), b, y))
      ensures (b.arguments.Some? && !listable) || call.Refused? ==> bindings == old(bindings)
      ensures (b.arguments.None? || listable) && call.Done? ==> ok
    {
      var key;
      if b.arguments.Some? {
        if !listable { return false; }
        var info := FindBindingInfo(b, listed);
        if info.None? {
          assert forall x :: x in bindings && Declares(b, x) ==> x in listed;
          assert bindings == set x | x in bindings && !Declares(b, x);
          return true;
        }
        key := info.value.propertiesKey;
        assert forall x :: x in bindings && Declares(b, x) ==> x == info.value;
      } else {
        key := PropertiesKey(b);
      }
      assert KeyDeletes(bindings, b, key);
      KeyDeletion(bindings, b, key, h);
      ok := DeleteBinding(b, key, call);
    }
  }

  /** The key is the one under which the broker has b's binding, or the one it would have. */
  ghost predicate KeyDeletes(bs: set<BindingInfo>, b: BindingSpec, key: string) {
    if b.arguments.None? then key == PropertiesKey(b)
    else (exists x :: x in bs && Declares(b, x)) && forall x :: x in bs && Declares(b, x) ==> x.propertiesKey == key
  }

  /** What goes with the key: the declared binding and those that collide with it. */
  lemma KeyDeletion(bs: set<BindingInfo>, b: BindingSpec, key: string, h: Hash)
    requires WellKeyed(bs, h) && KeyDeletes(bs, b, key)
    ensures forall x :: x in bs && Declares(b, x) ==> x.propertiesKey == key
    ensures forall y :: Collides(bs, b, y) <==> y in bs && Between(y, b) && y.propertiesKey == key && !Declares(b, y)
    ensures var left := set x | x in bs && !(Between(x, b) && x.propertiesKey == key);
            left == (set x | x in bs && !Declares(b, x)) <==> !exists y :: Collides(bs, b, y)
  {
    var left := set x | x in bs && !(Between(x, b) && x.propertiesKey == key);
    var want := set x | x in bs && !Declares(b, x);
    if y :| Collides(bs, b, y) {
      assert y in want && y !in left;
    } else {
      forall x ensures x in left <==> x in want {
        assert !Collides(bs, b, x);
      }
    }
  }

  lemma KeyStart(s: string, a: string)
    requires '~' !in s
    ensures (s + "~" + a)[0] == '~' <==> s == []
    ensures s == [] ==> (s + "~" + a)[1..] == a
    ensures s != [] ==> (s + "~" + a)[0] == s[0] && (s + "~" + a)[1..] == s[1..] + "~" + a
  {
    var k := s + "~" + a;
    if s != [] {
      assert k == [s[0]] + (s[1..] + "~" + a);
    }
  }

  /** The only "~" of a key with arguments separates its two parts. */
  lemma {:induction false} KeyParts(s: string, t: string, a: string, b: string)
    requires '~' !in s && '~' !in t && s + "~" + a == t + "~" + b
    ensures s == t && a == b
    decreases |s|
  {
    KeyStart(s, a);
    KeyStart(t, b);
    if s != [] {
      KeyParts(s[1..], t[1..], a, b);
    }
  }

  /** Two bindings have one key exactly when their plain keys agree and so do their arguments, or the
      hashes of their arguments. */
  lemma SameKeyMeans(h: Hash, rk: string, args: Arguments, rk': string, args': Arguments)
    requires HashShape(h)
    ensures BrokerKey(h, rk, args) == BrokerKey(h, rk', args') <==>
              PlainKey(rk) == PlainKey(rk') && (args == args' || (args != map[] && args' != map[] && h(args) == h(args')))
  {
    EscapedHasNoTilde(rk);
    EscapedHasNoTilde(rk');
    PlainKeyShape(rk);
    PlainKeyShape(rk');
    if args != map[] && args' != map[] {
      if BrokerKey(h, rk, args) == BrokerKey(h, rk', args') {
        KeyParts(Escaped(rk), Escaped(rk'), h(args), h(args'));
      }
    } else if args != map[] {
      LongKey(h, rk, args);
    } else if args' != map[] {
      LongKey(h, rk', args');
    }
  }

  /** A key with arguments is no plain key: it has a "~" and something else. */
  lemma LongKey(h: Hash, rk: string, args: Arguments)
    requires HashShape(h) && args != map[]
    ensures '~' in BrokerKey(h, rk, args) && BrokerKey(h, rk, args) != "~"
  {
    var k := Escaped(rk) + "~" + h(args);
    assert k[|Escaped(rk)|] == '~';
    assert |k| > 1;
  }

  /** No other arguments have the hash of these. */
  ghost predicate HashAlone(h: Hash, args: Arguments) {
    args == map[] || forall other: Arguments :: other != map[] && other != args ==> h(other) != h(args)
  }

  /** A routing key with neither "~" nor "%7E", and arguments that share no hash, collide with
      nothing, in any broker. */
  lemma PlainDeletionExact(bs: set<BindingInfo>, h: Hash, b: BindingSpec, y: BindingInfo)
    requires HashShape(h) && WellKeyed(bs, h) && '~' !in b.routingKey && !Escapes(b.routingKey) && HashAlone(h, ArgumentsOf(b.arguments))
    ensures !Collides(bs, b, y)
  {
    if Collides(bs, b, y) {
      var args := ArgumentsOf(b.arguments);
      assert y.propertiesKey == BrokerKey(h, b.routingKey, args) by {
        if b.arguments.Some? {
          var x :| x in bs && Declares(b, x) && x.propertiesKey == y.propertiesKey;
        }
      }
      SameKeyMeans(h, b.routingKey, args, y.routingKey, y.arguments);
      PlainlyUnambiguous(b.routingKey, y.routingKey);
    }
  }

  /** The binding that the broker holds for b. */
  function Held(h: Hash, b: BindingSpec): BindingInfo {
    BindingInfo(b.vhost, b.source, b.destination, b.destinationType, b.routingKey, ArgumentsOf(b.arguments),
                BrokerKey(h, b.routingKey, ArgumentsOf(b.arguments)))
  }

  /** For any other spec, with or without arguments, there is a broker that holds the declared binding
      and another one, which the deletion takes with it. */
  lemma AmbiguousDeletionHitsAnother(h: Hash, b: BindingSpec) returns (y: BindingInfo)
    requires HashShape(h)
    requires '~' in b.routingKey || Escapes(b.routingKey) || !HashAlone(h, ArgumentsOf(b.arguments))
    ensures WellKeyed({Held(h, b), y}, h) && Declares(b, Held(h, b)) && Collides({Held(h, b), y}, b, y)
  {
    var x, args := Held(h, b), ArgumentsOf(b.arguments);
    if '~' in b.routingKey || Escapes(b.routingKey) {
      var t := AmbiguousTwin(b.routingKey);
      SameKeyMeans(h, b.routingKey, args, t, args);
      y := x.(routingKey := t);
    } else {
      var other :| other != map[] && other != args && h(other) == h(args);
      y := x.(arguments := other);
    }
    assert x in {x, y} && Declares(b, x) && x.propertiesKey == y.propertiesKey;
  }

  /** So the deletion of a binding is exact in every broker exactly when its routing key has neither
      "~" nor "%7E" and no other arguments have the hash of its own. */
  lemma AlwaysExactWhen(h: Hash, b: BindingSpec)
    requires HashShape(h)
    ensures (forall bs, y :: WellKeyed(bs, h) ==> !Collides(bs, b, y))
            <==> '~' !in b.routingKey && !Escapes(b.routingKey) && HashAlone(h, ArgumentsOf(b.arguments))
  {
    if '~' !in b.routingKey && !Escapes(b.routingKey) && HashAlone(h, ArgumentsOf(b.arguments)) {
      forall bs, y | WellKeyed(bs, h) ensures !Collides(bs, b, y) { PlainDeletionExact(bs, h, b, y); }
    } else {
      var y := AmbiguousDeletionHitsAnother(h, b);
    }
  }
}
