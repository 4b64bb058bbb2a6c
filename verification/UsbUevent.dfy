/** The USB worker's reading of one kernel event: a buffer of NUL-terminated strings, scanned in
    place for partner additions and for the first port change. */
module UsbUevent {
  import opened Sequences

  const UEVENT_MSG_LEN := 2048
  const NUL := '\0'

  /** What the worker does for a string of the event. */
  datatype Action = PartnerAdded | PortChanged

  /** The pattern (add)(.*)(-partner): the dot matches no line end. */
  predicate IsPartner(s: string) {
    && |s| >= 11 && s[..3] == "add" && s[|s| - 8..] == "-partner"
    && forall k :: 3 <= k < |s| - 8 ==> s[k] != '\n' && s[k] != '\r'
  }

  predicate IsTypec(s: string) {
    |s| >= 14 && s[..14] == "DEVTYPE=typec_"
  }

  /** The partner strings are "add", anything within one line, and "-partner". */
  lemma PartnerStrings(s: string)
    ensures IsPartner(s) <==> exists m :: s == "add" + m + "-partner" && '\n' !in m && '\r' !in m
  {
    if IsPartner(s) {
      var m := s[3..|s| - 8];
      assert s == "add" + m + "-partner";
    }
    if m :| s == "add" + m + "-partner" && '\n' !in m && '\r' !in m {
      assert s[3..|s| - 8] == m;
      forall k | 3 <= k < |s| - 8 ensures s[k] != '\n' && s[k] != '\r' {
        assert s[k] == m[k - 3];
      }
    }
  }

  /** The port strings begin with "DEVTYPE=typec_". */
  lemma TypecStrings(s: string)
    ensures IsTypec(s) <==> exists m :: s == "DEVTYPE=typec_" + m
  {
    if IsTypec(s) {
      assert s == "DEVTYPE=typec_" + s[14..];
    }
  }

  /** The strings of an event, up to its end or the first empty one. */
  function Strings(t: string): seq<string>
    decreases |t|
  {
    var k := IndexOf(t, NUL);
    if k == 0 then [] else [t[..k]] + if k < |t| then Strings(t[k + 1..]) else []
  }

  function ActionsOf(strings: seq<string>): seq<Action> {
    if strings == [] then []
    else if IsPartner(strings[0]) then [PartnerAdded] + ActionsOf(strings[1..])
    else if IsTypec(strings[0]) then [PortChanged]
    else ActionsOf(strings[1..])
  }

  /** What is left of the event from position cp on. */
  function Rest(text: string, cp: nat): string {
    if cp <= |text| then text[cp..] else []
  }

  lemma FirstString(t: string, k: nat)
    requires 0 < k <= |t| && (k < |t| ==> t[k] == NUL) && forall j :: 0 <= j < k ==> t[j] != NUL
    ensures Strings(t) == [t[..k]] + Strings(Rest(t, k + 1))
  {
    IndexUnique(t, NUL, k);
    assert k == |t| ==> Strings([]) == [];
  }

  lemma RestOfRest(text: string, cp: nat, k: nat)
    requires cp <= |text|
    ensures Rest(Rest(text, cp), k) == Rest(text, cp + k)
  {}

  /** What the event still asks for from position cp on. */
  function Todo(text: string, cp: nat): seq<Action> {
    ActionsOf(Strings(Rest(text, cp)))
  }

  lemma ActionsStep(s: string, rest: seq<string>)
    ensures ActionsOf([s] + rest) ==
      if IsPartner(s) then [PartnerAdded] + ActionsOf(rest) else if IsTypec(s) then [PortChanged] else ActionsOf(rest)
  {
    assert ([s] + rest)[1..] == rest;
  }

  /** The string at cp decides the next action. */
  lemma ScanStep(text: string, cp: nat, end: nat)
    requires cp < end <= |text| && (end < |text| ==> text[end] == NUL)
    requires forall k :: cp <= k < end ==> text[k] != NUL
    ensures var s, rest := text[cp..end], Todo(text, end + 1);
      Todo(text, cp) == if IsPartner(s) then [PartnerAdded] + rest else if IsTypec(s) then [PortChanged] else rest
  {
    var t := Rest(text, cp);
    assert t[..end - cp] == text[cp..end];
    FirstString(t, end - cp);
    RestOfRest(text, cp, end - cp + 1);
    ActionsStep(text[cp..end], Strings(Rest(text, end + 1)));
  }

  lemma Regroup(a: seq<Action>, x: Action, b: seq<Action>)
    ensures a + ([x] + b) == (a + [x]) + b
  {}

  /** The actions made once the string s has been looked at. */
  function Made(made: seq<Action>, s: string): seq<Action> {
    made + if IsPartner(s) then [PartnerAdded] else if IsTypec(s) then [PortChanged] else []
  }

  /** After a string the actions made and those still wanted are all the event asks for. */
  lemma Progress(text: string, cp: nat, end: nat, s: string, wanted: seq<Action>, made: seq<Action>)
    requires cp < end <= |text| && (end < |text| ==> text[end] == NUL) && s == text[cp..end]
    requires forall k :: cp <= k < end ==> text[k] != NUL
    requires wanted == made + Todo(text, cp)
    ensures wanted == if !IsPartner(s) && IsTypec(s) then Made(made, s) else Made(made, s) + Todo(text, end + 1)
  {
    ScanStep(text, cp, end);
    Regroup(made, PartnerAdded, Todo(text, end + 1));
    assert made + [] == made;
  }

  /** The string at cp, which ends inside the buffer because of the terminator at n. */
  method StringAt(msg: array<char>, cp: nat, n: nat) returns (s: string, end: nat)
    requires cp <= n < msg.Length && msg[n] == NUL
    ensures cp <= end <= n && s == msg[..n][cp..end] && (end < n ==> msg[..n][end] == NUL)
    ensures forall k :: cp <= k < end ==> msg[..n][k] != NUL
    ensures msg[cp] != NUL ==> cp < end
  {
    end := cp;
    while msg[end] != NUL
      invariant cp <= end <= n
      invariant forall k :: cp <= k < end ==> msg[..n][k] != NUL
      decreases n - end
    {
      end := end + 1;
    }
    s := msg[..n][cp..end];
  }

  method Act(s: string, made: seq<Action>) returns (actions: seq<Action>, stop: bool)
    ensures stop <==> !IsPartner(s) && IsTypec(s)
    ensures actions == Made(made, s)
  {
    actions, stop := made, false;
    if IsPartner(s) {
      actions := actions + [PartnerAdded];
    } else if IsTypec(s) {
      actions, stop := actions + [PortChanged], true;
    }
  }

  /** Acts on the string at cp and moves past it, unless it was the port change that ends the scan. */
  method OneString(msg: array<char>, n: nat, cp: nat, made: seq<Action>, ghost wanted: seq<Action>)
    returns (actions: seq<Action>, next: nat, stop: bool)
    requires n + 1 < msg.Length && msg[n] == msg[n + 1] == NUL && cp <= n + 1 && msg[cp] != NUL
    requires wanted == made + Todo(msg[..n], cp)
    ensures cp < next <= n + 1
    ensures if stop then wanted == actions else wanted == actions + Todo(msg[..n], next)
  {
    var s, end := StringAt(msg, cp, n);
    Progress(msg[..n], cp, end, s, wanted, made);
    actions, stop := Act(s, made);
    next := end + 1;
  }

  lemma NothingLeft(text: string, cp: nat, at: char)
    requires at == NUL && (cp < |text| ==> text[cp] == at)
    ensures Todo(text, cp) == []
  {
    var t := Rest(text, cp);
    assert t != [] ==> t[0] == text[cp];
    assert IndexOf(t, NUL) == 0;
  }

  method Scan(msg: array<char>, n: nat) returns (actions: seq<Action>)
    requires n + 1 < msg.Length && msg[n] == msg[n + 1] == NUL
    ensures actions == ActionsOf(Strings(msg[..n]))
  {
    actions := [];
    ghost var text := msg[..n];
    ghost var wanted := Todo(text, 0);
    assert Rest(text, 0) == text;
    var cp, stop := 0, false;
    while !stop && msg[cp] != NUL
      invariant 0 <= cp <= n + 1
      invariant if stop then wanted == actions else wanted == actions + Todo(text, cp)
      decreases n + 1 - cp
    {
      actions, cp, stop := OneString(msg, n, cp, actions, wanted);
    }
    if !stop {
      NothingLeft(text, cp, msg[cp]);
    }
  }

  /** One event of n bytes, as received; too long an event is discarded. */
  method UeventEvent(msg: array<char>, n: int) returns (actions: seq<Action>)
    requires msg.Length == UEVENT_MSG_LEN + 2
    modifies msg
    ensures n <= 0 || n >= 2048 ==> actions == [] && msg[..] == old(msg[..])
    ensures 0 < n < 2048 ==> actions == ActionsOf(Strings(old(msg[..n])))
  {
    actions := [];
    if n <= 0 || n >= UEVENT_MSG_LEN {
      return;
    }
    msg[n], msg[n + 1] := NUL, NUL;
    assert msg[..n] == old(msg[..n]);
    actions := Scan(msg, n);
  }

  // ---------------------------------------------------------------- what an event does

  /** Where the first port change stands among the strings, or their number. */
  function FirstTypec(strings: seq<string>): (i: nat)
    ensures i <= |strings|
    ensures i < |strings| ==> IsTypec(strings[i])
    ensures forall j :: 0 <= j < i ==> !IsTypec(strings[j])
  {
    First(strings, IsTypec)
  }

  function Partners(strings: seq<string>): nat {
    if strings == [] then 0 else (if IsPartner(strings[0]) then 1 else 0) + Partners(strings[1..])
  }

  lemma Starts(s: string)
    ensures IsPartner(s) ==> s[0] == 'a'
    ensures IsTypec(s) ==> s[0] == 'D'
  {
    if IsPartner(s) { assert s[0] == s[..3][0]; }
    if IsTypec(s) { assert s[0] == s[..14][0]; }
  }

  /** An event adds a partner once for every matching string before its first port change, and
      then looks at the ports once if there is such a change, and at nothing after it. */
  lemma {:induction false} ActionsAre(strings: seq<string>)
    ensures var i := FirstTypec(strings);
      var actions, added := ActionsOf(strings), Partners(strings[..i]);
      && |actions| == added + (if i < |strings| then 1 else 0)
      && forall k :: 0 <= k < |actions| ==> actions[k] == if k < added then PartnerAdded else PortChanged
  {
    if strings != [] {
      var s, rest := strings[0], strings[1..];
      Starts(s);
      assert strings == [s] + rest;
      ActionsStep(s, rest);
      ActionsAre(rest);
      var i := FirstTypec(strings);
      if !IsTypec(s) {
        assert strings[..i][1..] == rest[..i - 1];
      } else {
        assert strings[..0] == [];
      }
    }
  }
}
