/**
 The user record: a plain attribute holder whose constructor fills in
 defaults, and whose mode set is updated by mode strings such as `+iw-x`.
 Modes are strings; a mode string toggles the one-unit modes it names.
 */
module Users {
  import opened Wrappers
  import opened Utf16

  /** The constructor's options; None is a missing or falsy attribute. */
  datatype UserOptions = UserOptions(
    nick: Option<Text>,
    username: Option<Text>,
    gecos: Option<Text>,
    host: Option<Text>,
    away: Option<bool>,
    modes: Option<seq<Text>>)

  datatype User = User(nick: Text, username: Text, gecos: Text, host: Text, away: bool, modes: set<Text>)

  /** `{}`: every attribute missing. */
  const NO_OPTIONS := UserOptions(None, None, None, None, None, None)

  /**
   `new User(opts)`: nick, username, gecos and host default to `''`, `away`
   is true only when given and true, and the modes are the set of the given
   modes (none when absent).
   */
  function NewUser(opts: Option<UserOptions>): (u: User)
    ensures opts.None? ==> u == User([], [], [], [], false, {})
    ensures opts.Some? ==>
      && u.nick == opts.value.nick.GetOr([])
      && u.username == opts.value.username.GetOr([])
      && u.gecos == opts.value.gecos.GetOr([])
      && u.host == opts.value.host.GetOr([])
    ensures u.away <==> opts.Some? && opts.value.away == Some(true)
    ensures forall m :: m in u.modes <==> opts.Some? && opts.value.modes.Some? && m in opts.value.modes.value
  {
    var o := opts.GetOr(NO_OPTIONS);
    var modes := o.modes.GetOr([]);
    User(o.nick.GetOr([]), o.username.GetOr([]), o.gecos.GetOr([]), o.host.GetOr([]), o.away.GetOr(false),
         set m | m in modes)
  }

  predicate IsSign(u: CodeUnit) {
    u == PLUS || u == MINUS
  }

  /** The `adding` flag after reading `s`: set by the last sign, true before any sign. */
  function AddingAfter(s: Text): bool
    decreases |s|
  {
    if |s| == 0 then true
    else if s[|s| - 1] == PLUS then true
    else if s[|s| - 1] == MINUS then false
    else AddingAfter(s[..|s| - 1])
  }

  /** One unit of a mode string: a sign only switches the flag; any other unit is added or deleted. */
  function ToggleUnit(modes: set<Text>, adding: bool, u: CodeUnit): set<Text> {
    if IsSign(u) then modes else if adding then modes + {[u]} else modes - {[u]}
  }

  /** `toggleModes(s)` on the mode set, unit by unit from the left. */
  function Toggle(modes: set<Text>, s: Text): set<Text>
    decreases |s|
  {
    if |s| == 0 then modes
    else ToggleUnit(Toggle(modes, s[..|s| - 1]), AddingAfter(s[..|s| - 1]), s[|s| - 1])
  }

  /** Where `u` occurs last in `s`. */
  function LastIndex(s: Text, u: CodeUnit): (k: nat)
    requires u in s
    ensures k < |s| && s[k] == u
    ensures forall j :: k < j < |s| ==> s[j] != u
    decreases |s|
  {
    if s[|s| - 1] == u then |s| - 1
    else
      assert u in s[..|s| - 1] by {
        var i :| 0 <= i < |s| && s[i] == u;
        assert s[..|s| - 1][i] == u;
      }
      LastIndex(s[..|s| - 1], u)
  }

  /**
   The membership of mode `m` after `s` by the last-occurrence rule: a
   one-unit mode other than a sign that `s` names is present iff the sign in
   force at its last occurrence was `+` (or there was no sign before it);
   every other mode keeps its membership.
   */
  predicate Toggled(modes: set<Text>, s: Text, m: Text) {
    if |m| == 1 && !IsSign(m[0]) && m[0] in s then AddingAfter(s[..LastIndex(s, m[0])]) else m in modes
  }

  /** Appending a unit other than `u` does not move the last occurrence of `u`. */
  lemma LastIndexAppend(p: Text, x: CodeUnit, u: CodeUnit)
    requires u in p && x != u
    ensures u in p + [x] && LastIndex(p + [x], u) == LastIndex(p, u)
  {
    var s := p + [x];
    var k := LastIndex(p, u);
    assert s[k] == u;
    var k' := LastIndex(s, u);
    assert s[..|s| - 1] == p;
  }

  /** The unit-by-unit toggle follows the last-occurrence rule. */
  lemma {:induction false} LastOccurrenceRule(modes: set<Text>, s: Text, m: Text)
    ensures m in Toggle(modes, s) <==> Toggled(modes, s, m)
    decreases |s|
  {
    if |s| > 0 {
      var p := s[..|s| - 1];
      var u := s[|s| - 1];
      assert s == p + [u];
      LastOccurrenceRule(modes, p, m);
      if |m| == 1 && !IsSign(m[0]) {
        var c := m[0];
        assert m == [c];
        if c == u {
          assert LastIndex(s, c) == |p|;
        } else {
          assert c in s <==> c in p;
          if c in p {
            LastIndexAppend(p, u, c);
            var k := LastIndex(p, c);
            assert s[..k] == p[..k];
          }
        }
      } else {
        if !IsSign(u) {
          assert m != [u];
        }
      }
    }
  }

  /**
   `user.toggleModes(modestr)`: the loop over the string's units, with the
   `adding` flag; only the mode set changes, and it ends as the
   last-occurrence rule says.
   */
  method ToggleModes(user: User, modestr: Text) returns (r: User)
    ensures r == user.(modes := r.modes)
    ensures forall m :: m in r.modes <==> Toggled(user.modes, modestr, m)
  {
    var adding := true;
    var modes := user.modes;
    var i := 0;
    while i < |modestr|
      invariant 0 <= i <= |modestr|
      invariant adding == AddingAfter(modestr[..i])
      invariant modes == Toggle(user.modes, modestr[..i])
    {
      var u := modestr[i];
      assert modestr[..i + 1][..i] == modestr[..i];
      if u == PLUS {
        adding := true;
      } else if u == MINUS {
        adding := false;
      } else if adding {
        modes := modes + {[u]};
      } else {
        modes := modes - {[u]};
      }
      i := i + 1;
    }
    assert modestr[..i] == modestr;
    r := user.(modes := modes);
    forall m
      ensures m in r.modes <==> Toggled(user.modes, modestr, m)
    {
      LastOccurrenceRule(user.modes, modestr, m);
    }
  }

  /** The signs are never modes that toggling adds or removes. */
  lemma SignsUntouched(modes: set<Text>, s: Text)
    ensures [PLUS] in Toggle(modes, s) <==> [PLUS] in modes
    ensures [MINUS] in Toggle(modes, s) <==> [MINUS] in modes
  {
    LastOccurrenceRule(modes, s, [PLUS]);
    LastOccurrenceRule(modes, s, [MINUS]);
  }

  /** Modes the string does not name keep their membership. */
  lemma OthersUntouched(modes: set<Text>, s: Text, m: Text)
    requires |m| != 1 || m[0] !in s
    ensures m in Toggle(modes, s) <==> m in modes
  {
    LastOccurrenceRule(modes, s, m);
  }

  lemma {:induction false} AddingWithoutSigns(s: Text)
    requires forall i :: 0 <= i < |s| ==> !IsSign(s[i])
    ensures AddingAfter(s)
    decreases |s|
  {
    if |s| > 0 {
      AddingWithoutSigns(s[..|s| - 1]);
    }
  }

  /** A string without signs adds every unit it names, since `adding` starts true. */
  lemma UnsignedAdds(modes: set<Text>, s: Text)
    requires forall i :: 0 <= i < |s| ==> !IsSign(s[i])
    ensures Toggle(modes, s) == modes + set i | 0 <= i < |s| :: [s[i]]
  {
    var added := set i | 0 <= i < |s| :: [s[i]];
    forall m
      ensures m in Toggle(modes, s) <==> m in modes + added
    {
      LastOccurrenceRule(modes, s, m);
      if |m| == 1 && m[0] in s {
        var k := LastIndex(s, m[0]);
        AddingWithoutSigns(s[..k]);
        assert m == [s[k]];
      }
    }
  }

  /** Toggling by the same string twice is toggling once. */
  lemma ToggleIdempotent(modes: set<Text>, s: Text)
    ensures Toggle(Toggle(modes, s), s) == Toggle(modes, s)
  {
    var once := Toggle(modes, s);
    forall m
      ensures m in Toggle(once, s) <==> m in once
    {
      LastOccurrenceRule(once, s, m);
      LastOccurrenceRule(modes, s, m);
    }
  }
}
