/** Connect servers as they are announced: `serverId=..&serverType=..` strings, read back by key and
    grouped by server id (connect/rpc.go, task/rpc.go). */
module ServiceRecords {

  // ---------------------------------------------------------------- splitting

  /** The pieces of `s` between separators. */
  function Split(s: string, sep: char): (r: seq<string>)
    ensures r != []
  {
    if s == [] then [""]
    else
      var rest := Split(s[1..], sep);
      if s[0] == sep then [""] + rest else [[s[0]] + rest[0]] + rest[1..]
  }

  lemma {:induction false} PiecesAreFree(s: string, sep: char)
    ensures forall p | p in Split(s, sep) :: sep !in p
    decreases |s|
  {
    if s != [] {
      PiecesAreFree(s[1..], sep);
      var rest := Split(s[1..], sep);
      forall p | p in Split(s, sep) ensures sep !in p {
        if s[0] != sep && p == [s[0]] + rest[0] { assert rest[0] in rest; }
      }
    }
  }

  lemma {:induction false} SplitFree(a: string, sep: char)
    requires sep !in a
    ensures Split(a, sep) == [a]
  {
    if a != [] {
      assert a == [a[0]] + a[1..];
      SplitFree(a[1..], sep);
    }
  }

  /** A separator ends the first piece. */
  lemma {:induction false} SplitJoin(a: string, b: string, sep: char)
    requires sep !in a
    ensures Split(a + [sep] + b, sep) == [a] + Split(b, sep)
    decreases |a|
  {
    var s := a + [sep] + b;
    if a == [] {
      assert s[1..] == b;
    } else {
      assert s[1..] == a[1..] + [sep] + b;
      SplitJoin(a[1..], b, sep);
      assert a == [a[0]] + a[1..];
    }
  }

  /** The pieces put together again. */
  function Join(pieces: seq<string>, sep: char): string
    requires pieces != []
  {
    if |pieces| == 1 then pieces[0] else pieces[0] + [sep] + Join(pieces[1..], sep)
  }

  /** Splitting loses nothing: the pieces are free of the separator and make up the string. */
  lemma {:induction false} JoinSplit(s: string, sep: char)
    ensures Join(Split(s, sep), sep) == s && forall p | p in Split(s, sep) :: sep !in p
    decreases |s|
  {
    PiecesAreFree(s, sep);
    if s != [] {
      JoinSplit(s[1..], sep);
      var rest := Split(s[1..], sep);
      assert s == [s[0]] + s[1..];
      if s[0] == sep {
        assert ([""] + rest)[1..] == rest;
      } else {
        var pieces := [[s[0]] + rest[0]] + rest[1..];
        assert pieces[1..] == rest[1..];
      }
    }
  }

  /** A string splits in two at a character exactly if it holds it once, between the two. */
  lemma SplitsInTwoIff(s: string, sep: char, a: string, b: string)
    ensures Split(s, sep) == [a, b] <==> s == a + [sep] + b && sep !in a && sep !in b
  {
    if Split(s, sep) == [a, b] {
      JoinSplit(s, sep);
      assert [a, b][1..] == [b];
    }
    if s == a + [sep] + b && sep !in a && sep !in b {
      SplitJoin(a, b, sep);
      SplitFree(b, sep);
      assert [a] + [b] == [a, b];
    }
  }

  // ---------------------------------------------------------------- reading a parameter

  /** The value of the first well-formed pair with that key among the pieces. */
  function FirstWithKey(params: seq<string>, key: string): string {
    if params == [] then ""
    else
      var kv := Split(params[0], '=');
      if |kv| == 2 && kv[0] == key then kv[1] else FirstWithKey(params[1..], key)
  }

  function ParamByKey(s: string, key: string): string { FirstWithKey(Split(s, '&'), key) }

  method GetParamByKey(s: string, key: string) returns (v: string)
    ensures v == ParamByKey(s, key)
  {
    var params := Split(s, '&');
    for i := 0 to |params|
      invariant FirstWithKey(params, key) == FirstWithKey(params[i..], key)
    {
      var kv := Split(params[i], '=');
      assert params[i..][1..] == params[i + 1..];
      if |kv| == 2 && kv[0] == key {
        return kv[1];
      }
    }
    v := "";
  }

  /** The parameter is the value of the first piece (the `i`-th) that is the key, one '=' and a value; with no
      such piece it is empty. */
  lemma ParamIsFirst(s: string, key: string) returns (i: nat)
    requires '=' !in key
    ensures var (pieces, v) := (Split(s, '&'), ParamByKey(s, key));
      && i <= |pieces|
      && (if i == |pieces| then v == "" else pieces[i] == key + "=" + v && '=' !in v)
      && forall j, w | 0 <= j < i && '=' !in w :: pieces[j] != key + "=" + w
  {
    i := FirstIsFirst(Split(s, '&'), key);
  }

  lemma {:induction false} FirstIsFirst(params: seq<string>, key: string) returns (i: nat)
    requires '=' !in key
    ensures var v := FirstWithKey(params, key);
      && i <= |params|
      && (if i == |params| then v == "" else params[i] == key + "=" + v && '=' !in v)
      && forall j, w | 0 <= j < i && '=' !in w :: params[j] != key + "=" + w
  {
    i := 0;
    if params != [] {
      var kv := Split(params[0], '=');
      if |kv| == 2 && kv[0] == key {
        assert kv == [key, kv[1]];
        SplitsInTwoIff(params[0], '=', key, kv[1]);
      } else {
        forall w | '=' !in w ensures params[0] != key + "=" + w {
          SplitsInTwoIff(params[0], '=', key, w);
        }
        hide Split;
        i := FirstIsFirst(params[1..], key);
        i := i + 1;
      }
    }
  }

  /** What a connect server registers. */
  function Registration(id: string, serverType: string): string {
    "serverId=" + id + "&serverType=" + serverType
  }

  predicate Plain(s: string) { '&' !in s && '=' !in s }

  lemma {:induction false} ValueIsPlain(params: seq<string>, key: string)
    requires forall p | p in params :: '&' !in p
    ensures Plain(FirstWithKey(params, key))
  {
    if params != [] {
      var kv := Split(params[0], '=');
      if |kv| == 2 && kv[0] == key {
        PiecesAreFree(params[0], '=');
        assert params[0] in params && kv[1] in kv;
        PieceCharacters(params[0], '=', kv[1]);
      } else {
        ValueIsPlain(params[1..], key);
      }
    }
  }

  lemma {:induction false} PieceCharacters(s: string, sep: char, p: string)
    requires p in Split(s, sep)
    ensures forall c | c in p :: c in s
    decreases |s|
  {
    if s != [] {
      var rest := Split(s[1..], sep);
      if p in rest {
        PieceCharacters(s[1..], sep, p);
      } else if s[0] != sep {
        assert rest[0] in rest;
        PieceCharacters(s[1..], sep, rest[0]);
      }
    }
  }

  lemma PairSplit(key: string, value: string)
    requires '=' !in key && '=' !in value
    ensures Split(key + "=" + value, '=') == [key, value]
  {
    SplitJoin(key, value, '=');
    SplitFree(value, '=');
    assert [key] + [value] == [key, value];
  }

  lemma RegistrationSplit(id: string, serverType: string)
    requires '&' !in id && '&' !in serverType
    ensures Split(Registration(id, serverType), '&') == ["serverId=" + id, "serverType=" + serverType]
  {
    var a, b := "serverId=" + id, "serverType=" + serverType;
    assert '&' !in "serverId=" && '&' !in "serverType=";
    assert Registration(id, serverType) == a + ['&'] + b;
    SplitJoin(a, b, '&');
    SplitFree(b, '&');
    assert [a] + [b] == [a, b];
  }

  /** The server id is read back from the registration exactly when it is free of both separators,
      and then so is the type. */
  lemma RegistrationReadsBackIff(id: string, serverType: string)
    requires Plain(serverType)
    ensures ParamByKey(Registration(id, serverType), "serverId") == id <==> Plain(id)
    ensures Plain(id) ==> ParamByKey(Registration(id, serverType), "serverType") == serverType
  {
    var s := Registration(id, serverType);
    PiecesAreFree(s, '&');
    ValueIsPlain(Split(s, '&'), "serverId");
    hide Split;
    if Plain(id) {
      RegistrationSplit(id, serverType);
      var a, b := "serverId=" + id, "serverType=" + serverType;
      assert "serverId=" == "serverId" + "=" && "serverType=" == "serverType" + "=";
      PairSplit("serverId", id);
      PairSplit("serverType", serverType);
      assert a == "serverId" + "=" + id && b == "serverType" + "=" + serverType;
      assert [a, b][1..] == [b];
      assert "serverId" != "serverType" by { assert |"serverId"| != |"serverType"|; }
      assert FirstWithKey([a, b], "serverId") == id;
      assert FirstWithKey([b], "serverType") == serverType;
      assert FirstWithKey([a, b], "serverType") == serverType;
    }
  }

  // ---------------------------------------------------------------- grouping

  /** A service as discovery lists it: its address and what it registered. */
  datatype Record = Record(address: string, value: string)

  datatype Instance = Instance(serverType: string, serverId: string, client: string)

  function InstanceOf(r: Record): Instance {
    Instance(ParamByKey(r.value, "serverType"), ParamByKey(r.value, "serverId"), r.address)
  }

  predicate WellFormed(r: Record) {
    ParamByKey(r.value, "serverType") != "" && ParamByKey(r.value, "serverId") != ""
  }

  /** The well-formed records of one server, in order. */
  function Of(rs: seq<Record>, id: string): seq<Instance> {
    if rs == [] then []
    else
      var r := rs[|rs| - 1];
      Of(rs[..|rs| - 1], id) + (if WellFormed(r) && InstanceOf(r).serverId == id then [InstanceOf(r)] else [])
  }

  /** Groups hold exactly the well-formed records, each once and in order under its own server id,
      and no group is empty. */
  ghost predicate Groups(groups: map<string, seq<Instance>>, rs: seq<Record>) {
    && (forall id :: id in groups <==> Of(rs, id) != [])
    && (forall id | id in groups :: groups[id] == Of(rs, id))
  }

  lemma OfNext(rs: seq<Record>, r: Record, id: string)
    ensures Of(rs + [r], id) == Of(rs, id) + (if WellFormed(r) && InstanceOf(r).serverId == id then [InstanceOf(r)] else [])
  {
    assert (rs + [r])[..|rs|] == rs;
  }

  /** One more record: appended to its server's group, or skipped. */
  lemma GroupsNext(groups: map<string, seq<Instance>>, rs: seq<Record>, r: Record)
    requires Groups(groups, rs)
    ensures !WellFormed(r) ==> Groups(groups, rs + [r])
    ensures WellFormed(r) ==>
      var ins := InstanceOf(r);
      Groups(groups[ins.serverId := (if ins.serverId in groups then groups[ins.serverId] else []) + [ins]], rs + [r])
  {
    hide WellFormed, InstanceOf, Of;
    forall id ensures Of(rs + [r], id) == Of(rs, id) + (if WellFormed(r) && InstanceOf(r).serverId == id then [InstanceOf(r)] else []) {
      OfNext(rs, r, id);
    }
  }

  method GroupByServer(rs: seq<Record>) returns (groups: map<string, seq<Instance>>)
    ensures Groups(groups, rs)
  {
    hide ParamByKey, Groups;
    groups := map[];
    NoGroups();
    for i := 0 to |rs|
      invariant Groups(groups, rs[..i])
    {
      assert rs[..i + 1] == rs[..i] + [rs[i]];
      GroupsNext(groups, rs[..i], rs[i]);
      var serverType := GetParamByKey(rs[i].value, "serverType");
      var serverId := GetParamByKey(rs[i].value, "serverId");
      if serverType == "" || serverId == "" {
        continue;
      }
      var ins := Instance(serverType, serverId, rs[i].address);
      if serverId !in groups {
        assert [] + [ins] == [ins];
        groups := groups[serverId := [ins]];
      } else {
        groups := groups[serverId := groups[serverId] + [ins]];
      }
    }
    assert rs[..|rs|] == rs;
  }

  lemma NoGroups()
    ensures Groups(map[], [])
  {
  }

  /** Every well-formed record is in one group only. */
  lemma EveryRecordGrouped(rs: seq<Record>, r: Record, id: string)
    requires r in rs && WellFormed(r)
    ensures InstanceOf(r) in Of(rs, id) <==> InstanceOf(r).serverId == id
  {
    hide WellFormed, InstanceOf;
    OfOwnServer(rs, id);
    InOf(rs, r);
  }

  /** A record that says its type and its id. */
  predicate Announces(r: Record, x: Instance) {
    && ParamByKey(r.value, "serverType") == x.serverType && x.serverType != ""
    && ParamByKey(r.value, "serverId") == x.serverId && x.serverId != ""
    && r.address == x.client
  }

  /** A group holds what records announce under its id, and nothing else. */
  lemma GroupMembers(groups: map<string, seq<Instance>>, rs: seq<Record>, id: string, x: Instance)
    requires Groups(groups, rs)
    ensures id in groups && x in groups[id] <==> x.serverId == id && exists r :: r in rs && Announces(r, x)
  {
    OfMembers(rs, id, x);
    hide ParamByKey, Of;
    if r :| r in rs && Announces(r, x) && x.serverId == id {
      assert x in Of(rs, id) ==> Of(rs, id) != [];
    }
  }

  lemma {:induction false} OfMembers(rs: seq<Record>, id: string, x: Instance)
    ensures x in Of(rs, id) <==> x.serverId == id && exists r :: r in rs && Announces(r, x)
    decreases |rs|
  {
    hide ParamByKey;
    if rs != [] {
      var front, r := rs[..|rs| - 1], rs[|rs| - 1];
      OfMembers(front, id, x);
      assert rs == front + [r];
      assert WellFormed(r) && x == InstanceOf(r) <==> Announces(r, x);
      hide Announces, WellFormed, InstanceOf;
    }
  }

  /** What a connect server registers is found in the group of its own id, as its type, id and address, and in
      no other. */
  lemma RegisteredIsGrouped(groups: map<string, seq<Instance>>, rs: seq<Record>, address: string, id: string, serverType: string)
    requires Groups(groups, rs) && Record(address, Registration(id, serverType)) in rs
    requires Plain(id) && id != "" && Plain(serverType) && serverType != ""
    ensures id in groups && Instance(serverType, id, address) in groups[id]
    ensures forall other | other in groups && other != id :: Instance(serverType, id, address) !in groups[other]
  {
    var r := Record(address, Registration(id, serverType));
    RegistrationReadsBackIff(id, serverType);
    hide ParamByKey, Registration;
    EveryRecordGrouped(rs, r, id);
    forall other | other in groups && other != id ensures Instance(serverType, id, address) !in groups[other] {
      EveryRecordGrouped(rs, r, other);
    }
    hide Of;
  }

  lemma {:induction false} OfOwnServer(rs: seq<Record>, id: string)
    ensures forall x | x in Of(rs, id) :: x.serverId == id
    decreases |rs|
  {
    if rs != [] { OfOwnServer(rs[..|rs| - 1], id); }
  }

  lemma {:induction false} InOf(rs: seq<Record>, r: Record)
    requires r in rs && WellFormed(r)
    ensures InstanceOf(r) in Of(rs, InstanceOf(r).serverId)
    decreases |rs|
  {
    hide WellFormed, InstanceOf;
    var n := |rs| - 1;
    if rs[n] != r {
      assert rs == rs[..n] + [rs[n]];
      InOf(rs[..n], r);
    }
  }
}
