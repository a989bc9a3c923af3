/** The setter object: each of its methods does to its fields what the model of a call says. */
module Setter {
  import opened Settings

  class SettingsObject {
    var data: Data

    constructor ()
      ensures data == EMPTY
    {
      data := EMPTY;
    }
  }

  class SetterObject {
    const settings: SettingsObject
    var data: Data
    var host: bool
    var port: bool
    var socket: bool
    var prio: bool
    var optSet: set<Opt>
    var prev: LastOpt

    ghost function Now(): State
      reads this
    {
      State(data, host, port, socket, prio, optSet, prev)
    }

    constructor (settings: SettingsObject)
      ensures this.settings == settings && Now() == Start(settings.data)
    {
      this.settings, data := settings, settings.data;
      host, port, socket, prio := false, false, false, false;
      optSet, prev := {}, Nothing;
    }

    /** On failure the setter may be left half changed; the settings are not touched. */
    twostate predicate Does(r: Result<State>, ok: bool)
      reads this
    {
      ok == r.Ok? && (ok ==> Now() == r.value)
    }

    method AddOption(ov: OptVal) returns (ok: bool)
      modifies this
      ensures Does(Settings.AddOption(old(Now()), ov), ok)
    {
      var opts := data.options;
      prev := SetTo(ov.opt);
      if Repeats(ov.opt) {
        data := data.(options := opts + [ov]);
        return true;
      }
      if ov.opt in optSet { return false; }
      optSet := optSet + {ov.opt};
      var i := 0;
      while i < |opts| && opts[i].opt != ov.opt
        invariant 0 <= i <= |opts| && forall j :: 0 <= j < i ==> opts[j].opt != ov.opt
      {
        i := i + 1;
      }
      data := data.(options := if i < |opts| then opts[i := ov] else opts + [ov]);
      return true;
    }

    method SetHost(v: string) returns (ok: bool)
      modifies this
      ensures Does(Settings.SetHost(old(Now()), v), ok)
    {
      if data.hostCnt == 0 && port { return false; }
      if data.userPriorities && host && !prio { return false; }
      host, port, socket, prio := true, false, false, false;
      data := data.(hostCnt := data.hostCnt + 1, tcpip := true);
      ok := AddOption(OptVal(HOST, Str(v)));
    }

    method SetSocket(v: string) returns (ok: bool)
      modifies this
      ensures Does(Settings.SetSocket(old(Now()), v), ok)
    {
      if data.userPriorities && host && !prio { return false; }
      host, port, socket, prio := true, false, true, false;
      data := data.(hostCnt := data.hostCnt + 1, sock := true);
      ok := AddOption(OptVal(SOCKET, Str(v)));
    }

    method SetPort(v: nat) returns (ok: bool)
      modifies this
      ensures Does(Settings.SetPort(old(Now()), v), ok)
    {
      if port { return false; }
      if 0 < data.hostCnt && prev != SetTo(HOST) { return false; }
      if socket || prio || v > 65535 { return false; }
      port := true;
      data := data.(tcpip := true);
      ok := AddOption(OptVal(PORT, Num(v)));
    }

    method SetPriority(v: nat) returns (ok: bool)
      modifies this
      ensures Does(Settings.SetPriority(old(Now()), v), ok)
    {
      if prev != SetTo(HOST) && prev != SetTo(PORT) && prev != SetTo(SOCKET) { return false; }
      if prio || !host { return false; }
      if 1 < data.hostCnt && !data.userPriorities { return false; }
      if v > 100 { return false; }
      data := data.(userPriorities := true);
      prio := true;
      ok := AddOption(OptVal(PRIORITY, Num(v)));
    }

    method SetSslMode(v: nat) returns (ok: bool)
      modifies this
      ensures Does(Settings.SetSslMode(old(Now()), v), ok)
    {
      if v >= NO_MODE { return false; }
      data := data.(sslMode := v);
      if !Verifying(v) && data.sslCa { return false; }
      ok := AddOption(OptVal(SSL_MODE, Num(v)));
    }

    method SetSslCa(v: string) returns (ok: bool)
      modifies this
      ensures Does(Settings.SetSslCa(old(Now()), v), ok)
    {
      if !Verifying(data.sslMode) && data.sslMode != NO_MODE { return false; }
      data := data.(sslCa := true);
      ok := AddOption(OptVal(SSL_CA, Str(v)));
    }

    method SetAuth(v: nat) returns (ok: bool)
      modifies this
      ensures Does(Settings.SetAuth(old(Now()), v), ok)
    {
      if v >= AUTH_LAST { return false; }
      ok := AddOption(OptVal(AUTH, Num(v)));
    }

    method SetOption(ov: OptVal) returns (ok: bool)
      modifies this
      ensures Does(Settings.SetOption(old(Now()), ov), ok)
    {
      hide ModeOfName, AuthOfName, Settings.AddOption;
      ok := false;
      if ov.val.Num? && ov.val.n > UINT_MAX { return false; }
      match ov.opt
      case HOST => if ov.val.Str? { ok := SetHost(ov.val.s); }
      case SOCKET => if ov.val.Str? { ok := SetSocket(ov.val.s); }
      case PORT => if ov.val.Num? { ok := SetPort(ov.val.n); }
      case PRIORITY => if ov.val.Num? { ok := SetPriority(ov.val.n); }
      case SSL_CA => if ov.val.Str? { ok := SetSslCa(ov.val.s); }
      case SSL_MODE =>
        var v := if ov.val.Str? then ModeOfName(ov.val.s) else Ok(ov.val.n);
        if v.Ok? { ok := SetSslMode(v.value); }
      case AUTH =>
        var v := if ov.val.Str? then AuthOfName(ov.val.s) else Ok(ov.val.n);
        if v.Ok? { ok := SetAuth(v.value); }
      case _ => if ov.val.Str? { ok := AddOption(ov); }
    }

    method SetNull(o: Opt) returns (ok: bool)
      modifies this
      ensures Does(Apply(old(Now()), Unset(o)), ok)
    {
      if o == HOST || o == PORT || o == PRIORITY || o == USER { return false; }
      data := Erase(data, o);
      ok := true;
    }

    method Commit() returns (ok: bool)
      modifies settings
      ensures ok == Settings.Commit(old(settings.data), old(Now())).Ok?
      ensures settings.data == if ok then old(data) else old(settings.data)
    {
      if data.tcpip && settings.data.tcpip && settings.data.hostCnt == 0 { return false; }
      if data.userPriorities && !prio { return false; }
      settings.data := data;
      ok := true;
    }
  }

  /** One transaction: all of the calls and the commit, or no change at all. */
  method Transact(settings: SettingsObject, ops: seq<Op>) returns (ok: bool)
    modifies settings
    ensures settings.data == Transaction(old(settings.data), ops)
  {
    hide Settings.SetOption, Erase;
    var s := new SetterObject(settings);
    ghost var start := Start(settings.data);
    var i := 0;
    assert ops[..0] == [];
    while i < |ops|
      invariant 0 <= i <= |ops| && s.settings == settings && settings.data == old(settings.data)
      invariant ApplyAll(start, ops[..i]) == Ok(s.Now())
    {
      ghost var st := s.Now();
      label before:
      if ops[i].Set? {
        ok := s.SetOption(ops[i].ov);
      } else {
        ok := s.SetNull(ops[i].opt);
      }
      assert ops[..i + 1][..i] == ops[..i];
      if !ok {
        FailureStays(start, ops, i + 1);
        return;
      }
      i := i + 1;
    }
    assert ops[..|ops|] == ops;
    ok := s.Commit();
  }

  lemma {:induction false} FailureStays(st: State, ops: seq<Op>, i: nat)
    requires i <= |ops| && ApplyAll(st, ops[..i]).Error?
    ensures ApplyAll(st, ops).Error?
    decreases |ops|
  {
    if i == |ops| {
      assert ops[..i] == ops;
    } else {
      assert ops[..|ops| - 1][..i] == ops[..i];
      FailureStays(st, ops[..|ops| - 1], i);
    }
  }
}
