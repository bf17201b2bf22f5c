/** AampConfig's priority layering: settings that remember who set them and one previous value. */
module ConfigLayering {

  /** ConfigPriority. */
  type Owner = o: int | 0 <= o <= 7
  const DEFAULT_SETTING: Owner := 0
  const APPLICATION_SETTING: Owner := 3
  const TUNE_SETTING: Owner := 4

  /** ConfigBool, ConfigInt, ConfigLong, ConfigDouble and ConfigString. */
  datatype Setting<T> = Setting(owner: Owner, value: T, lastowner: Owner, lastvalue: T)

  /** SetValue. */
  function Set<T>(s: Setting<T>, newowner: Owner, value: T): Setting<T> {
    if s.owner <= newowner then
      var s1 := if s.owner != newowner then s.(lastvalue := s.value, lastowner := s.owner) else s;
      s1.(value := value, owner := newowner)
    else s
  }

  /** What RestoreConfiguration does to one setting. */
  function Restore<T>(s: Setting<T>, owner: Owner): Setting<T> {
    if s.owner == owner && s.owner != s.lastowner then s.(owner := s.lastowner, value := s.lastvalue) else s
  }

  /** The AuthToken block of DoCustomSetting: the token moves to the tune layer, the undo level stays. */
  function PromoteAuthToken<T>(s: Setting<T>): Setting<T> {
    if s.owner == APPLICATION_SETTING then
      Set(s, TUNE_SETTING, s.value).(lastowner := s.lastowner, lastvalue := s.lastvalue)
    else s
  }

  /** The LiveOffset block of DoCustomSetting. */
  function DropAppLiveOffset<T>(s: Setting<T>): Setting<T> {
    if s.owner == APPLICATION_SETTING then s.(owner := s.lastowner, value := s.lastvalue) else s
  }

  // ---------------------------------------------------------------------------------------------
  // Runs of writes

  datatype Write<T> = Write(owner: Owner, value: T)

  function After<T>(s: Setting<T>, ws: seq<Write<T>>): Setting<T>
    decreases |ws|
  {
    if ws == [] then s else After(Set(s, ws[0].owner, ws[0].value), ws[1..])
  }

  function Current<T>(s: Setting<T>): Write<T> {
    Write(s.owner, s.value)
  }

  /** Position k holds the last write among those of the highest priority. */
  ghost predicate Wins<T>(ws: seq<Write<T>>, k: nat) {
    && k < |ws|
    && (forall j :: 0 <= j < |ws| ==> ws[j].owner <= ws[k].owner)
    && (forall j :: k < j < |ws| ==> ws[j].owner < ws[k].owner)
  }

  lemma WinnerUnique<T>(ws: seq<Write<T>>, j: nat, k: nat)
    requires Wins(ws, j) && Wins(ws, k)
    ensures j == k
  {
    assert ws[j].owner == ws[k].owner;
  }

  lemma {:induction false} AfterConcat<T>(s: Setting<T>, a: seq<Write<T>>, b: seq<Write<T>>)
    ensures After(s, a + b) == After(After(s, a), b)
    decreases |a|
  {
    if a == [] {
      assert a + b == b;
    } else {
      assert (a + b)[1..] == a[1..] + b;
      AfterConcat(Set(s, a[0].owner, a[0].value), a[1..], b);
    }
  }

  /** After any writes the setting holds the last write among those of highest priority, the value it
      started from counting as the first write. */
  lemma HighestPriorityWins<T>(s: Setting<T>, ws: seq<Write<T>>)
    ensures exists k: nat :: Wins([Current(s)] + ws, k)
    ensures forall k: nat :: Wins([Current(s)] + ws, k) ==> Current(After(s, ws)) == ([Current(s)] + ws)[k]
  {
    var k := Winner(s, ws);
    forall j: nat | Wins([Current(s)] + ws, j) ensures j == k {
      WinnerUnique([Current(s)] + ws, j, k);
    }
  }

  lemma {:induction false} Winner<T>(s: Setting<T>, ws: seq<Write<T>>) returns (k: nat)
    ensures Wins([Current(s)] + ws, k) && Current(After(s, ws)) == ([Current(s)] + ws)[k]
    decreases |ws|
  {
    if ws == [] {
      k := 0;
    } else {
      var n := |ws| - 1;
      var init, w := ws[..n], ws[n];
      k := Winner(s, init);
      assert ws == init + [w];
      AfterConcat(s, init, [w]);
      assert [w][1..] == [];
      var t := After(s, init);
      assert After(s, ws) == Set(t, w.owner, w.value);
      assert [Current(s)] + ws == ([Current(s)] + init) + [w];
      if t.owner <= w.owner {
        k := n + 1;
      }
    }
  }

  /** The remembered owner never exceeds the owner. */
  predicate Layered<T>(s: Setting<T>) {
    s.lastowner <= s.owner
  }

  lemma StepsKeepLayered<T>(s: Setting<T>, o: Owner, v: T)
    requires Layered(s)
    ensures Layered(Set(s, o, v)) && Layered(Restore(s, o)) && Layered(PromoteAuthToken(s)) && Layered(DropAppLiveOffset(s))
  {
  }

  /** Whatever a program does to a setting. */
  datatype Op<T> = SetOp(owner: Owner, value: T) | RestoreOp(owner: Owner) | PromoteOp | DropOp

  function DoAll<T>(s: Setting<T>, ops: seq<Op<T>>): Setting<T>
    decreases |ops|
  {
    if ops == [] then s
    else
      var t := match ops[0]
        case SetOp(o, v) => Set(s, o, v)
        case RestoreOp(o) => Restore(s, o)
        case PromoteOp => PromoteAuthToken(s)
        case DropOp => DropAppLiveOffset(s);
      DoAll(t, ops[1..])
  }

  /** Over any sequence of writes, restores and custom settings. */
  lemma {:induction false} AlwaysLayered<T>(s: Setting<T>, ops: seq<Op<T>>)
    requires Layered(s)
    ensures Layered(DoAll(s, ops))
    decreases |ops|
  {
    if ops != [] {
      match ops[0] {
        case SetOp(o, v) =>
          StepsKeepLayered(s, o, v);
          AlwaysLayered(Set(s, o, v), ops[1..]);
        case RestoreOp(o) => AlwaysLayered(Restore(s, o), ops[1..]);
        case PromoteOp => AlwaysLayered(PromoteAuthToken(s), ops[1..]);
        case DropOp => AlwaysLayered(DropAppLiveOffset(s), ops[1..]);
      }
    }
  }

  lemma {:induction false} BelowStaysBelow<T>(s: Setting<T>, ws: seq<Write<T>>, o: Owner)
    requires s.owner < o && forall w :: w in ws ==> w.owner < o
    ensures After(s, ws).owner < o
    decreases |ws|
  {
    if ws != [] {
      assert ws[0] in ws;
      BelowStaysBelow(Set(s, ws[0].owner, ws[0].value), ws[1..], o);
    }
  }

  /** Writes at or below the owner change the value only. */
  lemma {:induction false} NoHigherWrite<T>(s: Setting<T>, ws: seq<Write<T>>)
    requires forall w :: w in ws ==> w.owner <= s.owner
    ensures var t := After(s, ws); t.owner == s.owner && t.lastowner == s.lastowner && t.lastvalue == s.lastvalue
    decreases |ws|
  {
    if ws != [] {
      assert ws[0] in ws;
      NoHigherWrite(Set(s, ws[0].owner, ws[0].value), ws[1..]);
    }
  }

  lemma {:induction false} HigherWriteRaises<T>(s: Setting<T>, ws: seq<Write<T>>, o: Owner)
    requires s.owner > o || exists w :: w in ws && w.owner > o
    ensures After(s, ws).owner > o
    decreases |ws|
  {
    if ws != [] {
      HigherWriteRaises(Set(s, ws[0].owner, ws[0].value), ws[1..], o);
    }
  }

  /** A write by o over lower layers is undone by RestoreConfiguration(o) exactly when no later write came
      from above o: owner and value are then those before the first write by o. */
  lemma RestoreUndoesIff<T>(s: Setting<T>, pre: seq<Write<T>>, o: Owner, v: T, post: seq<Write<T>>)
    requires s.owner < o && forall w :: w in pre ==> w.owner < o
    ensures Current(Restore(After(s, pre + [Write(o, v)] + post), o)) == Current(After(s, pre))
            <==> forall w :: w in post ==> w.owner <= o
  {
    BelowStaysBelow(s, pre, o);
    AfterConcat(s, pre + [Write(o, v)], post);
    AfterConcat(s, pre, [Write(o, v)]);
    assert [Write(o, v)][1..] == [];
    var t := Set(After(s, pre), o, v);
    if forall w :: w in post ==> w.owner <= o {
      NoHigherWrite(t, post);
    } else {
      HigherWriteRaises(t, post, o);
    }
  }

  /** One level of undo: once a restore has changed a setting, no further restore does. */
  lemma SecondRestoreIdle<T>(s: Setting<T>, o: Owner, p: Owner)
    requires Restore(s, o) != s
    ensures Restore(Restore(s, o), p) == Restore(s, o)
  {
  }

  /** An AuthToken set by the application, promoted by DoCustomSetting and restored from the tune layer is
      back at its value before the application's first write; meanwhile it holds the application's last. */
  lemma AuthTokenRestored<T>(s: Setting<T>, pre: seq<Write<T>>, v: T, post: seq<Write<T>>)
    requires s.owner < APPLICATION_SETTING
    requires forall w :: w in pre ==> w.owner < APPLICATION_SETTING
    requires forall w :: w in post ==> w.owner <= APPLICATION_SETTING
    ensures var app := After(s, pre + [Write(APPLICATION_SETTING, v)] + post);
            var promoted := PromoteAuthToken(app);
            && promoted.owner == TUNE_SETTING && promoted.value == app.value
            && Current(Restore(promoted, TUNE_SETTING)) == Current(After(s, pre))
            && Current(Restore(Set(app, TUNE_SETTING, app.value), TUNE_SETTING)) == Current(app)
  {
    BelowStaysBelow(s, pre, APPLICATION_SETTING);
    AfterConcat(s, pre + [Write(APPLICATION_SETTING, v)], post);
    AfterConcat(s, pre, [Write(APPLICATION_SETTING, v)]);
    assert [Write(APPLICATION_SETTING, v)][1..] == [];
    NoHigherWrite(Set(After(s, pre), APPLICATION_SETTING, v), post);
  }

  /** DoCustomSetting moves a token to the tune layer, with its value and undo level, exactly when the last write of
      highest priority is the application's; a token of any other owner, and a live offset of any other owner,
      are left as they are. */
  lemma OnlyApplicationsCustom<T>(s: Setting<T>, ws: seq<Write<T>>, k: nat)
    requires Wins([Current(s)] + ws, k)
    ensures var t, w := After(s, ws), ([Current(s)] + ws)[k];
            && PromoteAuthToken(t) == (if w.owner == 3 then Setting(4, w.value, t.lastowner, t.lastvalue) else t)
            && DropAppLiveOffset(t)
               == (if w.owner == 3 then Setting(t.lastowner, t.lastvalue, t.lastowner, t.lastvalue) else t)
  {
    HighestPriorityWins(s, ws);
  }

  /** Ignoring the application's live offset is restoring the application layer of that setting. */
  lemma DropIsRestore<T>(s: Setting<T>)
    ensures DropAppLiveOffset(s) == Restore(s, APPLICATION_SETTING)
            <==> (s.owner == s.lastowner == APPLICATION_SETTING ==> s.value == s.lastvalue)
  {
  }

  // ---------------------------------------------------------------------------------------------
  // The setting arrays

  function RestoreFrom<T>(a: seq<Setting<T>>, from: nat, owner: Owner): (r: seq<Setting<T>>)
    ensures |r| == |a|
    ensures forall i :: 0 <= i < |a| ==> r[i] == if i < from then a[i] else Restore(a[i], owner)
  {
    seq(|a|, i requires 0 <= i < |a| => if i < from then a[i] else Restore(a[i], owner))
  }

  method SetValue<T>(settings: array<Setting<T>>, i: nat, newowner: Owner, value: T)
    requires i < settings.Length
    modifies settings
    ensures settings[..] == old(settings[..])[i := Set(old(settings[i]), newowner, value)]
  {
    var setting := settings[i];
    if setting.owner <= newowner {
      if setting.owner != newowner {
        setting := setting.(lastvalue := setting.value, lastowner := setting.owner);
      }
      settings[i] := setting.(value := value, owner := newowner);
    }
  }

  /** One of the five loops of RestoreConfiguration; the arrays other than the bools leave slot 0 unused. */
  method RestoreArray<T>(settings: array<Setting<T>>, from: nat, owner: Owner)
    modifies settings
    ensures settings[..] == RestoreFrom(old(settings[..]), from, owner)
  {
    var i := from;
    ghost var was := settings[..];
    while i < settings.Length
      invariant from <= i
      invariant forall j :: 0 <= j < settings.Length ==>
                  settings[j] == if from <= j < i then Restore(was[j], owner) else was[j]
    {
      if settings[i].owner == owner && settings[i].owner != settings[i].lastowner {
        settings[i] := settings[i].(owner := settings[i].lastowner, value := settings[i].lastvalue);
      }
      i := i + 1;
    }
  }

  class AampConfig {
    const bAampCfgValue: array<Setting<bool>>
    const iAampCfgValue: array<Setting<int>>
    const lAampCfgValue: array<Setting<int>>
    const dAampCfgValue: array<Setting<real>>
    const sAampCfgValue: array<Setting<string>>
    const authToken: nat    // eAAMPConfig_AuthToken, as an index of sAampCfgValue
    const liveOffset: nat   // eAAMPConfig_LiveOffset, as an index of dAampCfgValue

    /** iAampCfgValue and lAampCfgValue have one Dafny type but are arrays of their own. */
    ghost predicate Valid() {
      iAampCfgValue != lAampCfgValue && authToken < sAampCfgValue.Length && liveOffset < dAampCfgValue.Length
    }

    constructor (bools: array<Setting<bool>>, ints: array<Setting<int>>, longs: array<Setting<int>>,
                 doubles: array<Setting<real>>, strings: array<Setting<string>>, authToken: nat, liveOffset: nat)
      requires ints != longs && authToken < strings.Length && liveOffset < doubles.Length
      ensures Valid() && bAampCfgValue == bools && iAampCfgValue == ints && lAampCfgValue == longs
      ensures dAampCfgValue == doubles && sAampCfgValue == strings
      ensures this.authToken == authToken && this.liveOffset == liveOffset
    {
      bAampCfgValue, iAampCfgValue, lAampCfgValue, dAampCfgValue, sAampCfgValue := bools, ints, longs, doubles, strings;
      this.authToken, this.liveOffset := authToken, liveOffset;
    }

    method RestoreConfiguration(owner: Owner)
      requires Valid()
      modifies bAampCfgValue, iAampCfgValue, lAampCfgValue, dAampCfgValue, sAampCfgValue
      ensures bAampCfgValue[..] == RestoreFrom(old(bAampCfgValue[..]), 0, owner)
      ensures iAampCfgValue[..] == RestoreFrom(old(iAampCfgValue[..]), 1, owner)
      ensures lAampCfgValue[..] == RestoreFrom(old(lAampCfgValue[..]), 1, owner)
      ensures dAampCfgValue[..] == RestoreFrom(old(dAampCfgValue[..]), 1, owner)
      ensures sAampCfgValue[..] == RestoreFrom(old(sAampCfgValue[..]), 1, owner)
    {
      RestoreArray(bAampCfgValue, 0, owner);
      RestoreArray(iAampCfgValue, 1, owner);
      RestoreArray(lAampCfgValue, 1, owner);
      RestoreArray(dAampCfgValue, 1, owner);
      RestoreArray(sAampCfgValue, 1, owner);
    }

    /** The AuthToken and LiveOffset blocks of DoCustomSetting. */
    method DoCustomSetting(ignoreAppLiveOffset: bool)
      requires Valid()
      modifies dAampCfgValue, sAampCfgValue
      ensures sAampCfgValue[..] == old(sAampCfgValue[..])[authToken := PromoteAuthToken(old(sAampCfgValue[authToken]))]
      ensures dAampCfgValue[..] == if ignoreAppLiveOffset
                then old(dAampCfgValue[..])[liveOffset := DropAppLiveOffset(old(dAampCfgValue[liveOffset]))]
                else old(dAampCfgValue[..])
    {
      if sAampCfgValue[authToken].owner == APPLICATION_SETTING {
        var tempowner, tempvalue := sAampCfgValue[authToken].lastowner, sAampCfgValue[authToken].lastvalue;
        var sessionToken := sAampCfgValue[authToken].value;
        SetValue(sAampCfgValue, authToken, TUNE_SETTING, sessionToken);
        sAampCfgValue[authToken] := sAampCfgValue[authToken].(lastowner := tempowner, lastvalue := tempvalue);
      }
      if ignoreAppLiveOffset && dAampCfgValue[liveOffset].owner == APPLICATION_SETTING {
        var tempowner, tempvalue := dAampCfgValue[liveOffset].lastowner, dAampCfgValue[liveOffset].lastvalue;
        dAampCfgValue[liveOffset] := dAampCfgValue[liveOffset].(owner := tempowner, value := tempvalue);
      }
    }
  }
}
