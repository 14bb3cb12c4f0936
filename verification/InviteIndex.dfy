/** The three-map index of live GB28181 invites: by media key, by SSRC, and
    the SSRC last recorded for a media key. */
module InviteIndex {
  import opened Bytes

  type Ssrc = s: int | 0 <= s < TWO32

  datatype MediaInfo = MediaInfo(isInvite: bool, ssrc: Ssrc, streamName: string,
                                 singlePort: bool, dumpFileName: string, mediaKey: string)

  datatype Maps = Maps(byKey: map<string, MediaInfo>, bySsrc: map<Ssrc, MediaInfo>, keyToSsrc: map<string, Ssrc>)

  datatype Op = Set(info: MediaInfo) | Clear(info: MediaInfo) | Bind(key: string, ssrc: Ssrc)

  // --------------------------------------------------- what is promised

  /** Every SSRC entry is nonzero, carries its own SSRC and is the entry of its
      media key; the third map mirrors the first; only invites are kept. */
  ghost predicate Sound(m: Maps) {
    && (forall k :: k in m.byKey ==> m.byKey[k].mediaKey == k && m.byKey[k].isInvite && k != "")
    && (forall s :: s in m.bySsrc ==> && s != 0
                                      && m.bySsrc[s].ssrc == s
                                      && m.bySsrc[s].mediaKey in m.byKey
                                      && m.byKey[m.bySsrc[s].mediaKey] == m.bySsrc[s])
    && m.keyToSsrc.Keys == m.byKey.Keys
    && (forall k :: k in m.byKey ==> m.keyToSsrc[k] == m.byKey[k].ssrc)
  }

  /** Every live key with a nonzero SSRC is found by that SSRC. */
  ghost predicate Complete(m: Maps) {
    forall k :: k in m.byKey && m.byKey[k].ssrc != 0 ==>
                  m.byKey[k].ssrc in m.bySsrc && m.bySsrc[m.byKey[k].ssrc] == m.byKey[k]
  }

  /** No two live keys share a nonzero SSRC. */
  ghost predicate Unshared(m: Maps) {
    forall j, k :: j in m.byKey && k in m.byKey && m.byKey[j].ssrc == m.byKey[k].ssrc != 0 ==> j == k
  }

  // ------------------------------------------------- the simple reference

  /** The live invites alone, as one map from media key to information. */
  function Live(live: map<string, MediaInfo>, op: Op): map<string, MediaInfo> {
    match op
    case Set(info) =>
      if info.isInvite && info.streamName != "" && info.mediaKey != "" then live[info.mediaKey := info] else live
    case Clear(info) => live - {info.mediaKey}
    case Bind(key, ssrc) => if key in live && ssrc != 0 then live[key := live[key].(ssrc := ssrc)] else live
  }

  function LiveAfter(ops: seq<Op>): map<string, MediaInfo> {
    if ops == [] then map[] else Live(LiveAfter(ops[..|ops| - 1]), ops[|ops| - 1])
  }

  // ------------------------------------------------------ the operations

  function ApplySet(m: Maps, info: MediaInfo): Maps {
    if !info.isInvite || info.streamName == "" || info.mediaKey == "" then m else
      var key := info.mediaKey;
      var stale := key in m.keyToSsrc && m.keyToSsrc[key] != info.ssrc && m.keyToSsrc[key] != 0;
      var bySsrc := if stale then m.bySsrc - {m.keyToSsrc[key]} else m.bySsrc;
      Maps(m.byKey[key := info],
           if info.ssrc != 0 then bySsrc[info.ssrc := info] else bySsrc,
           m.keyToSsrc[key := info.ssrc])
  }

  function ApplyClear(m: Maps, info: MediaInfo): Maps {
    if info.mediaKey == "" then m else
      var key := info.mediaKey;
      Maps(m.byKey - {key},
           if key in m.keyToSsrc && m.keyToSsrc[key] != 0 then m.bySsrc - {m.keyToSsrc[key]} else m.bySsrc,
           m.keyToSsrc - {key})
  }

  function ApplyBind(m: Maps, key: string, ssrc: Ssrc): Maps {
    if key == "" || ssrc == 0 || key !in m.byKey || !m.byKey[key].isInvite then m else
      var prev := m.byKey[key].ssrc;
      var info := m.byKey[key].(ssrc := ssrc);
      Maps(m.byKey[key := info],
           (if prev != 0 && prev != ssrc then m.bySsrc - {prev} else m.bySsrc)[ssrc := info],
           m.keyToSsrc[key := ssrc])
  }

  function Apply(m: Maps, op: Op): Maps {
    match op
    case Set(info) => ApplySet(m, info)
    case Clear(info) => ApplyClear(m, info)
    case Bind(key, ssrc) => ApplyBind(m, key, ssrc)
  }

  const EMPTY := Maps(map[], map[], map[])

  function After(ops: seq<Op>): Maps {
    if ops == [] then EMPTY else Apply(After(ops[..|ops| - 1]), ops[|ops| - 1])
  }

  // ------------------------------------------------------------ theorems

  lemma SetKeepsSound(m: Maps, info: MediaInfo)
    requires Sound(m)
    ensures Sound(ApplySet(m, info))
  {
  }

  lemma ClearKeepsSound(m: Maps, info: MediaInfo)
    requires Sound(m)
    ensures Sound(ApplyClear(m, info))
  {
  }

  lemma BindKeepsSound(m: Maps, key: string, ssrc: Ssrc)
    requires Sound(m)
    ensures Sound(ApplyBind(m, key, ssrc))
  {
  }

  lemma ApplyKeepsSound(m: Maps, op: Op)
    requires Sound(m)
    ensures Sound(Apply(m, op))
    ensures Apply(m, op).byKey == Live(m.byKey, op)
  {
    hide Sound;
    match op
    case Set(info) => SetKeepsSound(m, info);
    case Clear(info) => ClearKeepsSound(m, info);
    case Bind(key, ssrc) => BindKeepsSound(m, key, ssrc);
  }

  /** After any run of operations the index is sound, and its first map is
      exactly the live invites. */
  lemma {:induction false} RunIsSound(ops: seq<Op>)
    ensures Sound(After(ops)) && After(ops).byKey == LiveAfter(ops)
  {
    if ops != [] {
      RunIsSound(ops[..|ops| - 1]);
      ApplyKeepsSound(After(ops[..|ops| - 1]), ops[|ops| - 1]);
    }
  }

  lemma SetKeepsComplete(m: Maps, info: MediaInfo)
    requires Sound(m) && Complete(m) && Unshared(ApplySet(m, info))
    ensures Complete(ApplySet(m, info))
  {
    var n := ApplySet(m, info);
    if n != m {
      forall k | k in n.byKey && n.byKey[k].ssrc != 0
        ensures n.byKey[k].ssrc in n.bySsrc && n.bySsrc[n.byKey[k].ssrc] == n.byKey[k]
      {
        if k != info.mediaKey {
          assert m.bySsrc[m.byKey[k].ssrc] == m.byKey[k];
          assert n.byKey[info.mediaKey].ssrc != n.byKey[k].ssrc;
        }
      }
    }
  }

  lemma ClearKeepsComplete(m: Maps, info: MediaInfo)
    requires Sound(m) && Complete(m) && Unshared(m)
    ensures Complete(ApplyClear(m, info))
  {
    var n := ApplyClear(m, info);
    forall k | k in n.byKey && n.byKey[k].ssrc != 0
      ensures n.byKey[k].ssrc in n.bySsrc && n.bySsrc[n.byKey[k].ssrc] == n.byKey[k]
    {
      assert m.bySsrc[m.byKey[k].ssrc] == m.byKey[k];
    }
  }

  lemma BindKeepsComplete(m: Maps, key: string, ssrc: Ssrc)
    requires Sound(m) && Complete(m) && Unshared(m) && Unshared(ApplyBind(m, key, ssrc))
    ensures Complete(ApplyBind(m, key, ssrc))
  {
    var n := ApplyBind(m, key, ssrc);
    if n != m {
      forall k | k in n.byKey && n.byKey[k].ssrc != 0
        ensures n.byKey[k].ssrc in n.bySsrc && n.bySsrc[n.byKey[k].ssrc] == n.byKey[k]
      {
        if k != key {
          assert m.bySsrc[m.byKey[k].ssrc] == m.byKey[k];
          assert n.byKey[key].ssrc != n.byKey[k].ssrc;
          assert m.byKey[key].ssrc != m.byKey[k].ssrc;
        }
      }
    }
  }

  /** A complete index stays complete through an operation after which no
      nonzero SSRC is shared. */
  lemma ApplyKeepsComplete(m: Maps, op: Op)
    requires Sound(m) && Complete(m) && Unshared(m) && Unshared(Apply(m, op))
    ensures Complete(Apply(m, op))
  {
    hide Sound, Complete, Unshared, ApplySet, ApplyClear, ApplyBind;
    match op
    case Set(info) => SetKeepsComplete(m, info);
    case Clear(info) => ClearKeepsComplete(m, info);
    case Bind(key, ssrc) => BindKeepsComplete(m, key, ssrc);
  }

  lemma CompleteIsUnshared(m: Maps)
    requires Sound(m) && Complete(m)
    ensures Unshared(m)
  {
  }

  ghost predicate AlwaysComplete(ops: seq<Op>) {
    forall n :: 0 <= n <= |ops| ==> Complete(After(ops[..n]))
  }

  ghost predicate NeverShared(ops: seq<Op>) {
    forall n :: 0 <= n <= |ops| ==> Unshared(After(ops[..n]))
  }

  /** Through a whole run the SSRC map is the exact inverse of the live invites
      if and only if no two live keys ever share a nonzero SSRC. */
  lemma {:induction false} ExactInverseIffNeverShared(ops: seq<Op>)
    ensures AlwaysComplete(ops) <==> NeverShared(ops)
  {
    forall n | 0 <= n <= |ops|
      ensures Complete(After(ops[..n])) ==> Unshared(After(ops[..n]))
    {
      RunIsSound(ops[..n]);
      if Complete(After(ops[..n])) {
        CompleteIsUnshared(After(ops[..n]));
      }
    }
    if NeverShared(ops) {
      NeverSharedIsComplete(ops, |ops|);
    }
  }

  lemma {:induction false} NeverSharedIsComplete(ops: seq<Op>, n: nat)
    requires n <= |ops| && NeverShared(ops)
    ensures forall i :: 0 <= i <= n ==> Complete(After(ops[..i]))
  {
    if n > 0 {
      NeverSharedIsComplete(ops, n - 1);
      RunIsSound(ops[..n - 1]);
      assert ops[..n][..n - 1] == ops[..n - 1];
      ApplyKeepsComplete(After(ops[..n - 1]), ops[n - 1]);
    } else {
      assert ops[..0] == [];
    }
  }

  // ------------------------------------------- the maps from the history

  /** The operation makes the key live. */
  predicate Invites(op: Op, k: string) {
    op.Set? && op.info.isInvite && op.info.streamName != "" && op.info.mediaKey == k && k != ""
  }

  predicate Clears(op: Op, k: string) {
    op.Clear? && op.info.mediaKey == k
  }

  predicate Binds(op: Op, k: string) {
    op.Bind? && op.key == k && op.ssrc != 0
  }

  /** What is known of a key, from the last operation that speaks of it. */
  function Latest(ops: seq<Op>, k: string): Option<MediaInfo> {
    if ops == [] then None
    else
      var op, before := ops[|ops| - 1], Latest(ops[..|ops| - 1], k);
      if Invites(op, k) then Some(op.info)
      else if Clears(op, k) then None
      else if Binds(op, k) && before.Some? then Some(before.value.(ssrc := op.ssrc))
      else before
  }

  lemma {:induction false} LiveIsLatest(ops: seq<Op>, k: string)
    ensures if k in LiveAfter(ops) then Latest(ops, k) == Some(LiveAfter(ops)[k]) else Latest(ops, k) == None
  {
    if ops != [] {
      LiveIsLatest(ops[..|ops| - 1], k);
    }
  }

  /** A key is live exactly if it was invited and not cleared since. */
  lemma {:induction false} LiveIffInvited(ops: seq<Op>, k: string)
    ensures k in LiveAfter(ops)
       <==> exists i :: 0 <= i < |ops| && Invites(ops[i], k) && forall j :: i < j < |ops| ==> !Clears(ops[j], k)
  {
    if ops != [] {
      hide Invites, Clears;
      var n := |ops| - 1;
      LiveIffInvited(ops[..n], k);
      LiveStep(LiveAfter(ops[..n]), ops[n], k);
      if k in LiveAfter(ops[..n]) && !Clears(ops[n], k) {
        var i :| 0 <= i < n && Invites(ops[..n][i], k) && forall j :: i < j < n ==> !Clears(ops[..n][j], k);
        assert forall j :: i < j < n ==> ops[..n][j] == ops[j];
        assert Invites(ops[i], k);
      }
      if i :| 0 <= i < n && Invites(ops[i], k) && forall j :: i < j < |ops| ==> !Clears(ops[j], k) {
        assert Invites(ops[..n][i], k) && forall j :: i < j < n ==> ops[..n][j] == ops[j];
      }
    }
  }

  lemma LiveStep(live: map<string, MediaInfo>, op: Op, k: string)
    ensures k in Live(live, op) <==> Invites(op, k) || (k in live && !Clears(op, k))
    ensures !(Invites(op, k) && Clears(op, k))
  {
  }

  /** The operation takes the SSRC away from the key that had it, in what it does
      to that key: a change to another SSRC, or a clear. */
  predicate Frees(live: map<string, MediaInfo>, op: Op, ssrc: Ssrc) {
    match op
    case Set(info) => Invites(op, info.mediaKey) && info.mediaKey in live && live[info.mediaKey].ssrc == ssrc != info.ssrc
    case Clear(info) => info.mediaKey in live && live[info.mediaKey].ssrc == ssrc
    case Bind(key, s) => Binds(op, key) && key in live && live[key].ssrc == ssrc != s
  }

  /** The operation gives the SSRC to a key. */
  predicate Gives(live: map<string, MediaInfo>, op: Op, ssrc: Ssrc) {
    match op
    case Set(info) => Invites(op, info.mediaKey) && info.ssrc == ssrc
    case Clear(_) => false
    case Bind(key, s) => Binds(op, key) && key in live && s == ssrc
  }

  /** What the last operation that gave or freed an SSRC left under it. */
  function Holder(ops: seq<Op>, ssrc: Ssrc): Option<MediaInfo> {
    if ops == [] || ssrc == 0 then None
    else
      var op, before := ops[|ops| - 1], ops[..|ops| - 1];
      if Gives(LiveAfter(before), op, ssrc) then
        Latest(ops, if op.Set? then op.info.mediaKey else op.key)
      else if Frees(LiveAfter(before), op, ssrc) then None
      else Holder(before, ssrc)
  }

  lemma HolderStep(m: Maps, op: Op, ssrc: Ssrc)
    requires Sound(m) && ssrc != 0
    ensures var n := Apply(m, op);
            var key := match op case Set(info) => info.mediaKey case Clear(info) => info.mediaKey case Bind(k, _) => k;
            && (ssrc in n.bySsrc <==> Gives(m.byKey, op, ssrc) || (ssrc in m.bySsrc && !Frees(m.byKey, op, ssrc)))
            && (Gives(m.byKey, op, ssrc) ==> key in n.byKey && n.bySsrc[ssrc] == n.byKey[key])
            && (ssrc in n.bySsrc && !Gives(m.byKey, op, ssrc) ==> n.bySsrc[ssrc] == m.bySsrc[ssrc])
  {
  }

  /** In every run, shared or not, the SSRC map holds under each SSRC exactly what the
      last operation that gave it to a key or took it from one left there. */
  lemma {:induction false} SsrcIsLastTouched(ops: seq<Op>, ssrc: Ssrc)
    ensures var m := After(ops);
            if ssrc in m.bySsrc then Holder(ops, ssrc) == Some(m.bySsrc[ssrc]) else Holder(ops, ssrc) == None
  {
    hide Gives, Frees, Latest;
    RunIsSound(ops);
    if ops != [] && ssrc != 0 {
      hide Sound, Apply;
      var n, op := |ops| - 1, ops[|ops| - 1];
      SsrcIsLastTouched(ops[..n], ssrc);
      RunIsSound(ops[..n]);
      HolderStep(After(ops[..n]), op, ssrc);
      LiveIsLatest(ops, match op case Set(info) => info.mediaKey case Clear(info) => info.mediaKey case Bind(k, _) => k);
      assert op.Clear? ==> !Gives(LiveAfter(ops[..n]), op, ssrc) by {
        ClearGivesNothing(LiveAfter(ops[..n]), op, ssrc);
      }
    }
  }

  lemma ClearGivesNothing(live: map<string, MediaInfo>, op: Op, ssrc: Ssrc)
    ensures op.Clear? ==> !Gives(live, op, ssrc)
  {
  }

  /** Without that condition a live key can be lost: two keys take the same
      SSRC, the second is cleared, and the first is no longer found by it. */
  lemma SharedSsrcLosesAKey(a: MediaInfo, b: MediaInfo)
    requires a.isInvite && b.isInvite && a.streamName != "" && b.streamName != ""
    requires a.mediaKey != "" && b.mediaKey != "" && a.mediaKey != b.mediaKey
    requires a.ssrc == b.ssrc != 0
    ensures var m := Apply(Apply(Apply(EMPTY, Set(a)), Set(b)), Clear(b));
            a.mediaKey in m.byKey && m.byKey[a.mediaKey] == a && a.ssrc !in m.bySsrc
  {
  }

  // ------------------------------------------------------- the program

  /** The index part of a lookup by SSRC. */
  function LookupSsrc(m: Maps, ssrc: Ssrc): Option<MediaInfo> {
    if ssrc != 0 && ssrc in m.bySsrc && m.bySsrc[ssrc].isInvite then Some(m.bySsrc[ssrc]) else None
  }

  /** What a lookup by SSRC answers, in terms of the live invites: never a
      wrong key, and while the index is complete never a miss. */
  lemma LookupSsrcIsLive(m: Maps, ssrc: Ssrc)
    requires Sound(m)
    ensures LookupSsrc(m, ssrc).Some? ==>
              var info := LookupSsrc(m, ssrc).value;
              info.ssrc == ssrc && info.mediaKey in m.byKey && m.byKey[info.mediaKey] == info
    ensures Complete(m) ==> (LookupSsrc(m, ssrc).None? <==>
                               ssrc == 0 || forall k :: k in m.byKey ==> m.byKey[k].ssrc != ssrc)
  {
    if LookupSsrc(m, ssrc).Some? {
      var info := LookupSsrc(m, ssrc).value;
      assert m.byKey[info.mediaKey].ssrc == ssrc;
    }
  }

  class InviteMediaIndex {
    var inviteBySsrc: map<Ssrc, MediaInfo>
    var inviteByMediaKey: map<string, MediaInfo>
    var inviteMediaKeyToSsrc: map<string, Ssrc>
    ghost var history: seq<Op>

    ghost function View(): Maps
      reads this
    {
      Maps(inviteByMediaKey, inviteBySsrc, inviteMediaKeyToSsrc)
    }

    ghost predicate Valid()
      reads this
    {
      View() == After(history) && Sound(View())
    }

    constructor ()
      ensures Valid() && history == []
    {
      inviteBySsrc, inviteByMediaKey, inviteMediaKeyToSsrc := map[], map[], map[];
      history := [];
    }

    ghost method Record(op: Op)
      requires View() == Apply(After(history), op) && Sound(After(history))
      modifies this`history
      ensures Valid() && history == old(history) + [op]
      ensures inviteByMediaKey == Live(After(old(history)).byKey, op)
    {
      hide Sound, Apply;
      ApplyKeepsSound(After(history), op);
      history := history + [op];
      assert history[..|history| - 1] == old(history);
    }

    method OnInviteMediaInfoSet(info: MediaInfo)
      requires Valid()
      modifies this
      ensures Valid() && history == old(history) + [Set(info)]
      ensures inviteByMediaKey == Live(old(inviteByMediaKey), Set(info))
    {
      hide Sound, After;
      if !info.isInvite || info.streamName == "" || info.mediaKey == "" {
        Record(Set(info));
        return;
      }
      if info.mediaKey in inviteMediaKeyToSsrc && inviteMediaKeyToSsrc[info.mediaKey] != info.ssrc {
        var oldSsrc := inviteMediaKeyToSsrc[info.mediaKey];
        if oldSsrc != 0 {
          inviteBySsrc := inviteBySsrc - {oldSsrc};
        }
      }
      inviteByMediaKey := inviteByMediaKey[info.mediaKey := info];
      if info.ssrc != 0 {
        inviteBySsrc := inviteBySsrc[info.ssrc := info];
      }
      inviteMediaKeyToSsrc := inviteMediaKeyToSsrc[info.mediaKey := info.ssrc];
      Record(Set(info));
    }

    method OnInviteMediaInfoClear(info: MediaInfo)
      requires Valid()
      modifies this
      ensures Valid() && history == old(history) + [Clear(info)]
      ensures inviteByMediaKey == Live(old(inviteByMediaKey), Clear(info))
    {
      hide Sound, After;
      if info.mediaKey == "" {
        Record(Clear(info));
        return;
      }
      if info.mediaKey in inviteMediaKeyToSsrc && inviteMediaKeyToSsrc[info.mediaKey] != 0 {
        inviteBySsrc := inviteBySsrc - {inviteMediaKeyToSsrc[info.mediaKey]};
      }
      inviteByMediaKey := inviteByMediaKey - {info.mediaKey};
      inviteMediaKeyToSsrc := inviteMediaKeyToSsrc - {info.mediaKey};
      Record(Clear(info));
    }

    method BindMediaKeySsrc(mediaKey: string, ssrc: Ssrc)
      requires Valid()
      modifies this
      ensures Valid() && history == old(history) + [Bind(mediaKey, ssrc)]
      ensures inviteByMediaKey == Live(old(inviteByMediaKey), Bind(mediaKey, ssrc))
    {
      hide Sound, After;
      if mediaKey == "" || ssrc == 0 {
        Record(Bind(mediaKey, ssrc));
        return;
      }
      if mediaKey !in inviteByMediaKey || !inviteByMediaKey[mediaKey].isInvite {
        Record(Bind(mediaKey, ssrc));
        return;
      }
      var info := inviteByMediaKey[mediaKey];
      var oldSsrc := info.ssrc;
      if oldSsrc != 0 && oldSsrc != ssrc {
        inviteBySsrc := inviteBySsrc - {oldSsrc};
      }
      info := info.(ssrc := ssrc);
      inviteByMediaKey := inviteByMediaKey[mediaKey := info];
      inviteBySsrc := inviteBySsrc[ssrc := info];
      inviteMediaKeyToSsrc := inviteMediaKeyToSsrc[mediaKey := ssrc];
      Record(Bind(mediaKey, ssrc));
    }

    /** The index part of CheckSsrc. */
    method CheckSsrc(ssrc: Ssrc) returns (r: Option<MediaInfo>)
      requires Valid()
      ensures r == LookupSsrc(View(), ssrc) == Holder(history, ssrc)
      ensures r.Some? ==> r.value.ssrc == ssrc && r.value.mediaKey in inviteByMediaKey
                          && inviteByMediaKey[r.value.mediaKey] == r.value
    {
      SsrcIsLastTouched(history, ssrc);
      if ssrc == 0 {
        return None;
      }
      if ssrc in inviteBySsrc && inviteBySsrc[ssrc].isInvite {
        return Some(inviteBySsrc[ssrc]);
      }
      return None;
    }

    /** The index part of GetMediaInfoByKey. */
    method GetMediaInfoByKey(key: string) returns (r: Option<MediaInfo>)
      requires Valid()
      ensures r == if key in LiveAfter(history) then Some(LiveAfter(history)[key]) else None
    {
      RunIsSound(history);
      if key == "" {
        return None;
      }
      if key in inviteByMediaKey && inviteByMediaKey[key].isInvite {
        return Some(inviteByMediaKey[key]);
      }
      return None;
    }
  }
}
