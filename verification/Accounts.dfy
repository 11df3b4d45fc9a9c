/**
Player accounts of sow-data/src/db.rs: what each account mutator does, and what
any sequence of committed mutators keeps. An account is read, changed by one
mutator, and written back only if the stored value is still the one read (see
AccountStore), so the stored account is always the result of such a sequence.
*/
module Accounts {
  import opened Leaders
  import opened Wrappers

  const U64_MAX: nat := 0xFFFF_FFFF_FFFF_FFFF
  const U32_MAX: nat := 0xFFFF_FFFF

  type U64 = x: nat | x <= U64_MAX
  type U32 = x: nat | x <= U32_MAX

  function SatAdd64(a: U64, b: U64): U64 {
    if a + b > U64_MAX then U64_MAX else a + b
  }

  function SatSub64(a: U64, b: U64): U64 {
    if a >= b then a - b else 0
  }

  function SatAdd32(a: U32, b: U32): U32 {
    if a + b > U32_MAX then U32_MAX else a + b
  }

  const LEADER_UNLOCK_COST_GEMS: U64 := 1500
  const LEADER_UNLOCK_COST_LAURELS: U64 := 500

  datatype Reward = Reward(xp: U32, leaderXp: U32, laurels: U64)

  const TUTORIAL_REWARD: Reward := Reward(100, 100, 100)

  /** Leaders are kept as text: owned ones by id, the preferred one by wire id, their experience by name. */
  datatype Profile = Profile(gems: U64, laurels: U64, xp: U32, level: U32, leaderXp: map<string, U32>,
                             preferredLeader: Option<string>, ownedLeaders: set<string>, ownedSkins: set<string>,
                             selectedSkin: Option<string>, events: set<string>, introCompleted: bool)

  datatype Account = Account(displayName: string, profile: Profile, updatedAt: nat)

  /** The mutators, with what the request fixes before the first attempt. */
  datatype Op =
    | GrantGems(event: string, gems: U64)
    | RevokeGems(event: string, gems: U64)
    | UnlockLeader(leader: Leader, useGems: bool, rotation: set<Leader>)
    | UnlockSkin(skin: string, cost: U64)
    | EquipSkin(requested: Option<string>)
    | CompleteTutorial
    | RecordMatch(played: Option<string>, reward: Reward)
    | Rename(name: string)
    | UpdateProfile(replacement: Profile)

  datatype Update = Update(op: Op, now: nat)

  // ---- What each mutator does ----

  function LeaderXp(xp: map<string, U32>, name: string): U32 {
    if name in xp then xp[name] else 0
  }

  function Rewarded(p: Profile, leader: Leader, r: Reward): Profile {
    var xp, entry := SatAdd32(p.xp, r.xp), SatAdd32(LeaderXp(p.leaderXp, Name(leader)), r.leaderXp);
    p.(xp := xp, level := 1 + xp / 100, leaderXp := p.leaderXp[Name(leader) := entry],
       laurels := SatAdd64(p.laurels, r.laurels))
  }

  function Balance(p: Profile, useGems: bool): U64 {
    if useGems then p.gems else p.laurels
  }

  function LeaderCost(useGems: bool): U64 {
    if useGems then LEADER_UNLOCK_COST_GEMS else LEADER_UNLOCK_COST_LAURELS
  }

  function Resolved(text: Option<string>): Option<Leader> {
    match text
    case Some(s) => LeaderFromId(s)
    case None => None
  }

  /** The preferred leader, or the fallback if none is recorded or the record names no leader. */
  function PreferredOr(p: Profile, fallback: Leader): Leader {
    match Resolved(p.preferredLeader)
    case Some(leader) => leader
    case None => fallback
  }

  /** The changed profile, or None when the mutator leaves the account alone. */
  function Changed(op: Op, p: Profile): Option<Profile> {
    match op
    case GrantGems(event, gems) =>
      if event in p.events then None
      else Some(p.(events := p.events + {event}, gems := SatAdd64(p.gems, gems)))
    case RevokeGems(event, gems) =>
      if event in p.events then None
      else Some(p.(events := p.events + {event}, gems := SatSub64(p.gems, gems)))
    case UnlockLeader(leader, useGems, rotation) =>
      var id := LeaderId(leader);
      if id in p.ownedLeaders || leader in rotation || Balance(p, useGems) < LeaderCost(useGems) then None
      else if useGems then
        Some(p.(gems := p.gems - LeaderCost(true), ownedLeaders := p.ownedLeaders + {id}))
      else
        Some(p.(laurels := p.laurels - LeaderCost(false), ownedLeaders := p.ownedLeaders + {id}))
    case UnlockSkin(skin, cost) =>
      if skin in p.ownedSkins || p.gems < cost then None
      else Some(p.(gems := p.gems - cost, ownedSkins := p.ownedSkins + {skin}))
    case EquipSkin(requested) =>
      if requested.Some? && requested.value !in p.ownedSkins then None
      else Some(p.(selectedSkin := requested))
    case CompleteTutorial =>
      if p.introCompleted then None
      else
        var leader := PreferredOr(p, Boudica);
        Some(Rewarded(p.(introCompleted := true, preferredLeader := Some(WireId(leader))), leader, TUTORIAL_REWARD))
    case RecordMatch(played, reward) =>
      (match Resolved(played)
       case Some(leader) => Some(Rewarded(p, leader, reward).(preferredLeader := Some(WireId(leader))))
       case None => Some(Rewarded(p, PreferredOr(p, Caesar), reward)))
    case Rename(name) => Some(p)
    case UpdateProfile(replacement) => Some(replacement)
  }

  function Apply(u: Update, a: Account): Account {
    match Changed(u.op, a.profile)
    case None => a
    case Some(p) => Account(if u.op.Rename? then u.op.name else a.displayName, p, u.now)
  }

  /** The account after a sequence of committed mutators. */
  function Fold(a: Account, updates: seq<Update>): Account {
    if updates == [] then a else
      Apply(updates[|updates| - 1], Fold(a, updates[..|updates| - 1]))
  }

  // ---- The account object ----

  /** An account that a mutator changes in place. */
  class PlayerAccount {
    var displayName: string
    var profile: Profile
    var updatedAt: nat

    function View(): Account
      reads this
    {
      Account(displayName, profile, updatedAt)
    }

    constructor (a: Account)
      ensures View() == a
    {
      displayName, profile, updatedAt := a.displayName, a.profile, a.updatedAt;
    }

    method AddXp(amount: U32)
      modifies this`profile
      ensures profile == old(profile).(xp := SatAdd32(old(profile.xp), amount), level := profile.level)
      ensures profile.level == 1 + profile.xp / 100
    {
      profile := profile.(xp := SatAdd32(profile.xp, amount));
      profile := profile.(level := 1 + profile.xp / 100);
    }

    method ApplyReward(leader: Leader, reward: Reward)
      modifies this`profile
      ensures profile == Rewarded(old(profile), leader, reward)
    {
      AddXp(reward.xp);
      var entry := SatAdd32(LeaderXp(profile.leaderXp, Name(leader)), reward.leaderXp);
      profile := profile.(leaderXp := profile.leaderXp[Name(leader) := entry]);
      profile := profile.(laurels := SatAdd64(profile.laurels, reward.laurels));
    }

    method GrantGems(event: string, amount: U64, now: nat)
      modifies this
      ensures View() == Apply(Update(Op.GrantGems(event, amount), now), old(View()))
    {
      if event in profile.events {
        return;
      }
      profile := profile.(events := profile.events + {event});
      profile := profile.(gems := SatAdd64(profile.gems, amount));
      updatedAt := now;
    }

    method RevokeGems(event: string, amount: U64, now: nat)
      modifies this
      ensures View() == Apply(Update(Op.RevokeGems(event, amount), now), old(View()))
    {
      if event in profile.events {
        return;
      }
      profile := profile.(events := profile.events + {event});
      profile := profile.(gems := SatSub64(profile.gems, amount));
      updatedAt := now;
    }

    method UnlockLeader(leader: Leader, useGems: bool, rotation: set<Leader>, now: nat)
      modifies this
      ensures View() == Apply(Update(Op.UnlockLeader(leader, useGems, rotation), now), old(View()))
    {
      var cost, id := LeaderCost(useGems), LeaderId(leader);
      if id in profile.ownedLeaders {
        return;
      } else if id in profile.ownedLeaders || leader in rotation {
        return;
      } else if (if useGems then profile.gems else profile.laurels) < cost {
        return;
      }
      if useGems {
        profile := profile.(gems := profile.gems - cost);
      } else {
        profile := profile.(laurels := profile.laurels - cost);
      }
      profile := profile.(ownedLeaders := profile.ownedLeaders + {id});
      updatedAt := now;
    }

    method UnlockSkin(skin: string, cost: U64, now: nat)
      modifies this
      ensures View() == Apply(Update(Op.UnlockSkin(skin, cost), now), old(View()))
    {
      if skin in profile.ownedSkins {
        return;
      } else if profile.gems < cost {
        return;
      }
      profile := profile.(gems := profile.gems - cost);
      profile := profile.(ownedSkins := profile.ownedSkins + {skin});
      updatedAt := now;
    }

    method EquipSkin(requested: Option<string>, now: nat)
      modifies this
      ensures View() == Apply(Update(Op.EquipSkin(requested), now), old(View()))
    {
      if requested.Some? {
        if requested.value !in profile.ownedSkins {
          return;
        }
        profile := profile.(selectedSkin := requested);
      } else {
        profile := profile.(selectedSkin := None);
      }
      updatedAt := now;
    }

    method CompleteTutorial(now: nat)
      modifies this
      ensures View() == Apply(Update(Op.CompleteTutorial, now), old(View()))
    {
      if profile.introCompleted {
        return;
      }
      profile := profile.(introCompleted := true);
      var preferred := Resolved(profile.preferredLeader);
      var leader := if preferred.Some? then preferred.value else Boudica;
      profile := profile.(preferredLeader := Some(WireId(leader)));
      ApplyReward(leader, TUTORIAL_REWARD);
      updatedAt := now;
    }

    method RecordMatch(played: Option<string>, reward: Reward, now: nat)
      modifies this
      ensures View() == Apply(Update(Op.RecordMatch(played, reward), now), old(View()))
    {
      var leader := Resolved(played);
      var preferred := Resolved(profile.preferredLeader);
      ApplyReward(
        if leader.Some? then leader.value else if preferred.Some? then preferred.value else Caesar, reward);
      if leader.Some? {
        profile := profile.(preferredLeader := Some(WireId(leader.value)));
      }
      updatedAt := now;
    }

    method Rename(name: string, now: nat)
      modifies this
      ensures View() == Apply(Update(Op.Rename(name), now), old(View()))
    {
      displayName := name;
      updatedAt := now;
    }

    method ReplaceProfile(replacement: Profile, now: nat)
      modifies this
      ensures View() == Apply(Update(UpdateProfile(replacement), now), old(View()))
    {
      profile := replacement;
      updatedAt := now;
    }

    /** Run the mutator of a request. */
    method Mutate(u: Update)
      modifies this
      ensures View() == Apply(u, old(View()))
    {
      hide Apply;
      match u.op
      case GrantGems(event, amount) => GrantGems(event, amount, u.now);
      case RevokeGems(event, amount) => RevokeGems(event, amount, u.now);
      case UnlockLeader(leader, useGems, rotation) => UnlockLeader(leader, useGems, rotation, u.now);
      case UnlockSkin(skin, cost) => UnlockSkin(skin, cost, u.now);
      case EquipSkin(requested) => EquipSkin(requested, u.now);
      case CompleteTutorial => CompleteTutorial(u.now);
      case RecordMatch(played, reward) => RecordMatch(played, reward, u.now);
      case Rename(name) => Rename(name, u.now);
      case UpdateProfile(replacement) => ReplaceProfile(replacement, u.now);
    }
  }

  // ---- Things that happen once ----

  /** What an account remembers so that it is paid for, or paid out, only once. */
  datatype Once = Event(id: string) | LeaderBought(leader: Leader) | SkinBought(skin: string) | Tutorial

  ghost predicate Marked(p: Profile, k: Once) {
    match k
    case Event(id) => id in p.events
    case LeaderBought(leader) => LeaderId(leader) in p.ownedLeaders
    case SkinBought(skin) => skin in p.ownedSkins
    case Tutorial => p.introCompleted
  }

  /** The mark a mutator sets and checks. */
  ghost function KeyOf(op: Op): Option<Once> {
    match op
    case GrantGems(event, _) => Some(Event(event))
    case RevokeGems(event, _) => Some(Event(event))
    case UnlockLeader(leader, _, _) => Some(LeaderBought(leader))
    case UnlockSkin(skin, _) => Some(SkinBought(skin))
    case CompleteTutorial => Some(Tutorial)
    case _ => None
  }

  /** The commit that sets the mark. */
  ghost predicate Effective(u: Update, a: Account, k: Once) {
    KeyOf(u.op) == Some(k) && !Marked(a.profile, k) && Marked(Apply(u, a).profile, k)
  }

  /** A mutator whose mark is set, or that fails to set it, leaves the account exactly as it was. */
  lemma NoHalfEffect(u: Update, a: Account, k: Once)
    requires KeyOf(u.op) == Some(k) && !Effective(u, a, k)
    ensures Apply(u, a) == a
  {
  }

  /** What the effective commit does: the payment and the mark, together, and nothing to the other balances. */
  lemma EffectIs(u: Update, a: Account, k: Once)
    requires Effective(u, a, k)
    ensures var p, q := a.profile, Apply(u, a).profile;
            match u.op
            case GrantGems(event, gems) =>
              && q.gems == (if p.gems + gems <= U64_MAX then p.gems + gems else U64_MAX)
              && q.laurels == p.laurels && q.events == p.events + {event}
            case RevokeGems(event, gems) =>
              && q.gems == (if p.gems >= gems then p.gems - gems else 0)
              && q.laurels == p.laurels && q.events == p.events + {event}
            case UnlockLeader(leader, useGems, rotation) =>
              && q.ownedLeaders == p.ownedLeaders + {LeaderId(leader)} && leader !in rotation
              && q.gems + (if useGems then 1500 else 0) == p.gems
              && q.laurels + (if useGems then 0 else 500) == p.laurels
            case UnlockSkin(skin, cost) =>
              q.ownedSkins == p.ownedSkins + {skin} && q.gems + cost == p.gems && q.laurels == p.laurels
            case CompleteTutorial =>
              && q.laurels == (if p.laurels + 100 <= U64_MAX then p.laurels + 100 else U64_MAX)
              && q.xp == SatAdd32(p.xp, 100) && q.gems == p.gems
            case _ => false
  {
  }

  /** A mutator with a mark takes effect unless the mark is set or, for a purchase, it is free or not affordable. */
  lemma TakesEffect(u: Update, a: Account, k: Once)
    requires KeyOf(u.op) == Some(k)
    ensures Effective(u, a, k) <==>
              && !Marked(a.profile, k)
              && match u.op
                 case UnlockLeader(leader, useGems, rotation) =>
                   leader !in rotation && (if useGems then a.profile.gems >= 1500 else a.profile.laurels >= 500)
                 case UnlockSkin(_, cost) => a.profile.gems >= cost
                 case _ => true
  {
    hide LeaderFromId, LeaderId;
  }

  /** The mutators without a mark, and what each of the others leaves alone. */
  lemma LeavesAlone(u: Update, a: Account)
    ensures var b := Apply(u, a);
            var p, q := a.profile, b.profile;
            && (b == a || b.updatedAt == u.now)
            && b.displayName == (if u.op.Rename? then u.op.name else a.displayName)
            && (u.op.Rename? ==> q == p && b.updatedAt == u.now)
            && (u.op.UpdateProfile? ==> q == u.op.replacement)
            && (u.op.EquipSkin? ==>
                  q == if u.op.requested.None? || u.op.requested.value in p.ownedSkins
                       then p.(selectedSkin := u.op.requested) else p)
            && (!u.op.UpdateProfile? && !u.op.EquipSkin? ==> q.selectedSkin == p.selectedSkin)
            && (!u.op.UpdateProfile? && !u.op.GrantGems? && !u.op.RevokeGems? ==> q.events == p.events)
            && (!u.op.UpdateProfile? && !u.op.UnlockLeader? ==> q.ownedLeaders == p.ownedLeaders)
            && (!u.op.UpdateProfile? && !u.op.UnlockSkin? ==> q.ownedSkins == p.ownedSkins)
            && (!u.op.UpdateProfile? && !u.op.CompleteTutorial? ==> q.introCompleted == p.introCompleted)
            && (!u.op.UpdateProfile? && !u.op.CompleteTutorial? && !u.op.RecordMatch? ==>
                  && q.xp == p.xp && q.level == p.level && q.leaderXp == p.leaderXp
                  && q.preferredLeader == p.preferredLeader)
  {
    hide LeaderFromId, LeaderId, Name, WireId;
  }

  /** A wholesale profile replacement does not drop mark `k`: it carries the mark if the account has it. */
  ghost predicate Keeps(op: Op, a: Account, k: Once) {
    op.UpdateProfile? && Marked(a.profile, k) ==> Marked(op.replacement, k)
  }

  lemma MarkStays(u: Update, a: Account, k: Once)
    requires Keeps(u.op, a, k) && Marked(a.profile, k)
    ensures Marked(Apply(u, a).profile, k)
  {
  }

  // Only the mutator with the key sets the mark, apart from a replaced profile.
  lemma OnlyItsOwn(u: Update, a: Account, k: Once)
    requires !u.op.UpdateProfile? && KeyOf(u.op) != Some(k)
    ensures Marked(Apply(u, a).profile, k) == Marked(a.profile, k)
  {
    hide LeaderFromId;
    if u.op.UnlockLeader? && k.LeaderBought? && LeaderId(u.op.leader) == LeaderId(k.leader) {
      IdsDiffer(u.op.leader, k.leader);
    }
  }

  /** How often a mark was set in a run. */
  ghost function TimesSet(a: Account, updates: seq<Update>, k: Once): nat {
    if updates == [] then 0 else
      var init, last := updates[..|updates| - 1], updates[|updates| - 1];
      TimesSet(a, init, k) + (if Effective(last, Fold(a, init), k) then 1 else 0)
  }

  /** No replacement in the run drops mark `k` from an account that has it. */
  ghost predicate KeptWhileMarked(a: Account, updates: seq<Update>, k: Once) {
    forall i :: 0 <= i < |updates| ==> Keeps(updates[i].op, Fold(a, updates[..i]), k)
  }

  lemma KeptBefore(a: Account, updates: seq<Update>, k: Once)
    requires updates != [] && KeptWhileMarked(a, updates, k)
    ensures KeptWhileMarked(a, updates[..|updates| - 1], k)
    ensures Keeps(updates[|updates| - 1].op, Fold(a, updates[..|updates| - 1]), k)
  {
    hide Fold, Keeps;
    var init := updates[..|updates| - 1];
    forall i | 0 <= i < |init|
      ensures Keeps(init[i].op, Fold(a, init[..i]), k)
    {
      assert init[..i] == updates[..i] && init[i] == updates[i];
    }
  }

  ghost predicate NoReplacement(updates: seq<Update>) {
    forall i :: 0 <= i < |updates| ==> !updates[i].op.UpdateProfile?
  }

  /**
  Each purchase event, item and tutorial counts at most once in any run, unless a replaced profile drops a mark
  the account has; without replacements, exactly if the mark is there in the end and was not at the start.
  */
  lemma {:induction false} OncePerKey(a: Account, updates: seq<Update>, k: Once)
    requires KeptWhileMarked(a, updates, k)
    ensures TimesSet(a, updates, k) <= (if Marked(a.profile, k) then 0 else 1)
    ensures TimesSet(a, updates, k) == 1 ==> Marked(Fold(a, updates).profile, k)
    ensures Marked(a.profile, k) ==> Marked(Fold(a, updates).profile, k)
    ensures NoReplacement(updates) && Marked(Fold(a, updates).profile, k) && !Marked(a.profile, k) ==>
              TimesSet(a, updates, k) == 1
  {
    hide Apply, Marked, KeyOf, KeptWhileMarked;
    if updates != [] {
      var init, last := updates[..|updates| - 1], updates[|updates| - 1];
      KeptBefore(a, updates, k);
      OncePerKey(a, init, k);
      if Marked(Fold(a, init).profile, k) {
        MarkStays(last, Fold(a, init), k);
      } else if !last.op.UpdateProfile? && KeyOf(last.op) != Some(k) {
        OnlyItsOwn(last, Fold(a, init), k);
      }
    }
  }

  /** Once the mark is set, later commits with the same key change nothing at all. */
  lemma LaterCommitsIdle(a: Account, updates: seq<Update>, i: nat, j: nat, k: Once)
    requires KeptWhileMarked(a, updates, k) && i < j < |updates|
    requires Effective(updates[i], Fold(a, updates[..i]), k) && KeyOf(updates[j].op) == Some(k)
    ensures Fold(a, updates[..j + 1]) == Fold(a, updates[..j])
  {
    hide Apply, Marked, KeyOf;
    MarkedFrom(a, updates, i + 1, j, k);
    assert updates[..i + 1][..i] == updates[..i];
    assert updates[..j + 1][..j] == updates[..j];
    NoHalfEffect(updates[j], Fold(a, updates[..j]), k);
  }

  lemma {:induction false} MarkedFrom(a: Account, updates: seq<Update>, i: nat, j: nat, k: Once)
    requires KeptWhileMarked(a, updates, k) && i <= j <= |updates|
    ensures Marked(Fold(a, updates[..i]).profile, k) ==> Marked(Fold(a, updates[..j]).profile, k)
  {
    hide Apply, Marked;
    if i < j {
      MarkedFrom(a, updates, i, j - 1, k);
      assert updates[..j][..j - 1] == updates[..j - 1];
      if Marked(Fold(a, updates[..j - 1]).profile, k) {
        MarkStays(updates[j - 1], Fold(a, updates[..j - 1]), k);
      }
    }
  }

  /** The condition is needed: a stale profile written back lets the same event pay twice. */
  lemma StaleProfilePaysTwice(a: Account)
    requires a.profile.gems == 0 && a.profile.events == {}
    ensures var grant := Update(Op.GrantGems("purchase", 500), 1);
            var stale := Update(UpdateProfile(a.profile), 2);
            && TimesSet(a, [grant, stale, grant], Event("purchase")) == 2
            && !KeptWhileMarked(a, [grant, stale, grant], Event("purchase"))
  {
    hide LeaderFromId;
    var grant, stale := Update(Op.GrantGems("purchase", 500), 1), Update(UpdateProfile(a.profile), 2);
    var all := [grant, stale, grant];
    var key := Event("purchase");
    assert all[..1] == [grant] && all[..2][..1] == [grant] && all[..2] == [grant, stale] && [grant][..0] == [];
    assert Fold(a, [grant]) == Apply(grant, a);
    assert Fold(a, [grant, stale]) == Apply(stale, Apply(grant, a));
    assert TimesSet(a, [grant], key) == 1;
    assert TimesSet(a, [grant, stale], key) == 1;
    assert !Keeps(all[1].op, Fold(a, all[..1]), key);
  }

  /**
  And it is exact. Replacing the profile of an account is safe for `k`, whatever commits follow, if and only if the
  replacement carries `k` or the account does not.
  */
  lemma SafeReplacement(a: Account, u: Update, k: Once)
    requires u.op.UpdateProfile?
    ensures Keeps(u.op, a, k) <==>
              forall more :: NoReplacement(more) ==>
                TimesSet(a, [u] + more, k) <= (if Marked(a.profile, k) then 0 else 1)
  {
    hide Apply, Marked, KeyOf, Fold, TimesSet;
    if Keeps(u.op, a, k) {
      forall more | NoReplacement(more)
        ensures TimesSet(a, [u] + more, k) <= (if Marked(a.profile, k) then 0 else 1)
      {
        OneReplacement(a, u, more, k);
        OncePerKey(a, [u] + more, k);
      }
    } else {
      PaysAgain(a, u, k);
      assert NoReplacement(Again(k));
    }
  }

  lemma OneReplacement(a: Account, u: Update, more: seq<Update>, k: Once)
    requires u.op.UpdateProfile? && Keeps(u.op, a, k) && NoReplacement(more)
    ensures KeptWhileMarked(a, [u] + more, k)
  {
    hide Apply, Marked;
    assert ([u] + more)[..0] == [];
  }

  /** Commits that set `k` on any account without it: enough of a balance first, if it takes one. */
  ghost function Again(k: Once): (more: seq<Update>)
    ensures NoReplacement(more)
  {
    match k
    case Event(id) => [Update(Op.GrantGems(id, 1), 0)]
    case LeaderBought(leader) =>
      [Update(Op.RecordMatch(None, Reward(0, 0, 500)), 0), Update(Op.UnlockLeader(leader, false, {}), 0)]
    case SkinBought(skin) => [Update(Op.UnlockSkin(skin, 0), 0)]
    case Tutorial => [Update(Op.CompleteTutorial, 0)]
  }

  // Once a replacement has dropped the mark, the same thing takes effect again.
  lemma PaysAgain(a: Account, u: Update, k: Once)
    requires u.op.UpdateProfile? && !Keeps(u.op, a, k)
    ensures TimesSet(a, [u] + Again(k), k) == 1 && Marked(a.profile, k)
  {
    hide LeaderFromId;
    var all := [u] + Again(k);
    FoldOne(a, u);
    assert all[..1] == [u] && [u][..0] == [];
    assert TimesSet(a, [u], k) == 0;
    if k.LeaderBought? {
      assert all[..2][..1] == [u] && all[..2] == [u, Again(k)[0]];
      var mid := Fold(a, all[..2]);
      assert mid == Apply(Again(k)[0], Apply(u, a));
      assert mid.profile.laurels >= 500 && !Marked(mid.profile, k);
      assert TimesSet(a, all[..2], k) == 0;
    }
  }

  lemma FoldOne(a: Account, u: Update)
    ensures Fold(a, [u]) == Apply(u, a)
  {
    assert [u][..0] == [];
  }

  // ---- What was paid ----

  /** The laurels that purchases took in a run, as the balance shows it. */
  ghost function LaurelsSpent(a: Account, updates: seq<Update>): int {
    if updates == [] then 0 else
      var init, last := updates[..|updates| - 1], updates[|updates| - 1];
      LaurelsSpent(a, init) +
      (if last.op.UnlockLeader? || last.op.UnlockSkin?
       then Fold(a, init).profile.laurels - Fold(a, updates).profile.laurels else 0)
  }

  /** How many leaders were bought in one of the two currencies. */
  ghost function Bought(a: Account, updates: seq<Update>, useGems: bool): nat {
    if updates == [] then 0 else
      var init, last := updates[..|updates| - 1], updates[|updates| - 1];
      Bought(a, init, useGems) +
      (if last.op.UnlockLeader? && last.op.useGems == useGems && Fold(a, updates) != Fold(a, init) then 1 else 0)
  }

  /** Purchases take laurels for leaders only, 500 for each, and every leader gained was paid for exactly once. */
  lemma {:induction false} LeadersArePaidFor(a: Account, updates: seq<Update>)
    requires NoReplacement(updates)
    ensures LaurelsSpent(a, updates) == LEADER_UNLOCK_COST_LAURELS * Bought(a, updates, false)
    ensures a.profile.ownedLeaders <= Fold(a, updates).profile.ownedLeaders
    ensures |Fold(a, updates).profile.ownedLeaders - a.profile.ownedLeaders| ==
              Bought(a, updates, false) + Bought(a, updates, true)
  {
    hide Apply;
    var final := Fold(a, updates).profile.ownedLeaders;
    if updates == [] {
      assert final - a.profile.ownedLeaders == {};
    } else {
      var init, last := updates[..|updates| - 1], updates[|updates| - 1];
      LeadersArePaidFor(a, init);
      var before := Fold(a, init);
      var owned := before.profile.ownedLeaders;
      LeaderStep(last, before);
      if last.op.UnlockLeader? && Fold(a, updates) != before {
        assert final - a.profile.ownedLeaders == owned - a.profile.ownedLeaders + {LeaderId(last.op.leader)};
      }
    }
  }

  lemma LeaderStep(u: Update, a: Account)
    requires !u.op.UpdateProfile?
    ensures var p, q := a.profile, Apply(u, a).profile;
            if u.op.UnlockLeader? && Apply(u, a) != a then
              && q.ownedLeaders == p.ownedLeaders + {LeaderId(u.op.leader)}
              && LeaderId(u.op.leader) !in p.ownedLeaders
              && q.laurels + (if u.op.useGems then 0 else LEADER_UNLOCK_COST_LAURELS) == p.laurels
            else
              && q.ownedLeaders == p.ownedLeaders
              && (u.op.UnlockLeader? || u.op.UnlockSkin? ==> q.laurels == p.laurels)
  {
  }

  // ---- What was earned ----

  /** The leader a commit rewards and by how much, if it rewards one. */
  ghost function RewardOf(u: Update, a: Account): Option<(Leader, Reward)> {
    match u.op
    case CompleteTutorial =>
      if a.profile.introCompleted then None else Some((PreferredOr(a.profile, Boudica), TUTORIAL_REWARD))
    case RecordMatch(played, reward) =>
      Some((match Resolved(played) case Some(leader) => leader case None => PreferredOr(a.profile, Caesar), reward))
    case _ => None
  }

  /** The experience handed out in a run: all of it, and what went to one leader. */
  ghost function Earned(a: Account, updates: seq<Update>): nat {
    if updates == [] then 0 else
      var init, last := updates[..|updates| - 1], updates[|updates| - 1];
      var reward := RewardOf(last, Fold(a, init));
      Earned(a, init) + (if reward.Some? then reward.value.1.xp else 0)
  }

  ghost function EarnedBy(a: Account, updates: seq<Update>, leader: Leader): nat {
    if updates == [] then 0 else
      var init, last := updates[..|updates| - 1], updates[|updates| - 1];
      var reward := RewardOf(last, Fold(a, init));
      EarnedBy(a, init, leader) + (if reward.Some? && reward.value.0 == leader then reward.value.1.leaderXp else 0)
  }

  function Capped32(n: nat): U32 {
    if n > U32_MAX then U32_MAX else n
  }

  ghost predicate LevelInStep(p: Profile) {
    p.level == 1 + p.xp / 100
  }

  /**
  No reward is lost or misdirected: after any run of commits the experience is all that was handed out, each
  leader's is what was handed out to that leader, up to the 32-bit cap, and the level is in step.
  */
  lemma {:induction false} ExperienceIsEarned(a: Account, updates: seq<Update>, leader: Leader)
    requires NoReplacement(updates)
    ensures var p := Fold(a, updates).profile;
            && p.xp == Capped32(a.profile.xp + Earned(a, updates))
            && LeaderXp(p.leaderXp, Name(leader)) ==
                 Capped32(LeaderXp(a.profile.leaderXp, Name(leader)) + EarnedBy(a, updates, leader))
            && (LevelInStep(a.profile) ==> LevelInStep(p))
  {
    hide Apply, RewardOf, Name;
    if updates != [] {
      var init, last := updates[..|updates| - 1], updates[|updates| - 1];
      ExperienceIsEarned(a, init, leader);
      RewardStep(last, Fold(a, init), leader);
    }
  }

  lemma RewardStep(u: Update, a: Account, leader: Leader)
    requires !u.op.UpdateProfile?
    ensures var p, q, reward := a.profile, Apply(u, a).profile, RewardOf(u, a);
            && q.xp == SatAdd32(p.xp, if reward.Some? then reward.value.1.xp else 0)
            && LeaderXp(q.leaderXp, Name(leader)) == SatAdd32(
                 LeaderXp(p.leaderXp, Name(leader)),
                 if reward.Some? && reward.value.0 == leader then reward.value.1.leaderXp else 0)
            && (LevelInStep(p) ==> LevelInStep(q))
  {
    hide LeaderFromId, Name, WireId, LeaderId;
    var reward := RewardOf(u, a);
    if reward.Some? && Name(reward.value.0) == Name(leader) {
      NamesDiffer(reward.value.0, leader);
    }
  }

  lemma NamesDiffer(x: Leader, y: Leader)
    requires Name(x) == Name(y)
    ensures x == y
  {
    LeaderFromIdIs("", x);
    LeaderFromIdIs("", y);
  }

  ghost predicate Named(text: Option<string>, leader: Leader) {
    text.Some? && Spells(text.value, leader)
  }

  /** The text names the leader or, if it names none, the leader is next in line. */
  ghost predicate First(text: Option<string>, leader: Leader, next: bool) {
    Named(text, leader) || (next && forall other :: !Named(text, other))
  }

  lemma ResolvedIs(text: Option<string>, leader: Leader, next: bool)
    ensures First(text, leader, next) <==> Resolved(text) == Some(leader) || (next && Resolved(text) == None)
  {
    hide Spells, LeaderFromId;
    if text.Some? {
      forall other ensures LeaderFromId(text.value) == Some(other) <==> Named(text, other) {
        LeaderFromIdIs(text.value, other);
      }
    }
  }

  /**
  Who is rewarded, and what: after a match the leader the request names, else the preferred one, else Caesar, with
  the reward of the match; after the tutorial the preferred one, else Boudica, with 100 of everything.
  */
  lemma RewardGoesTo(u: Update, a: Account, leader: Leader)
    requires u.op.RecordMatch? || (u.op.CompleteTutorial? && !a.profile.introCompleted)
    ensures RewardOf(u, a).Some?
    ensures var p, q, (rewarded, reward) := a.profile, Apply(u, a).profile, RewardOf(u, a).value;
            && (u.op.RecordMatch? ==>
                  && (rewarded == leader <==>
                        First(u.op.played, leader, First(p.preferredLeader, leader, leader.Caesar?)))
                  && reward == u.op.reward)
            && (u.op.CompleteTutorial? ==>
                  (rewarded == leader <==> First(p.preferredLeader, leader, leader.Boudica?))
                  && reward == Reward(100, 100, 100))
            && q.laurels == (if p.laurels + reward.laurels <= U64_MAX then p.laurels + reward.laurels else U64_MAX)
            && q.gems == p.gems
            && var had := if Name(rewarded) in p.leaderXp then p.leaderXp[Name(rewarded)] else 0;
               && Name(rewarded) in q.leaderXp
               && q.leaderXp[Name(rewarded)] ==
                    (if had + reward.leaderXp <= U32_MAX then had + reward.leaderXp else U32_MAX)
  {
    hide First, Resolved, Name, WireId;
    var p := a.profile;
    ResolvedIs(p.preferredLeader, leader, leader.Caesar?);
    ResolvedIs(p.preferredLeader, leader, leader.Boudica?);
    if u.op.RecordMatch? {
      ResolvedIs(u.op.played, leader, First(p.preferredLeader, leader, leader.Caesar?));
    }
  }

  /** The leader on record after the tutorial or a match with a known leader is the one that was rewarded. */
  lemma RewardedIsPreferred(u: Update, a: Account)
    requires RewardOf(u, a).Some? && (u.op.RecordMatch? ==> Resolved(u.op.played).Some?)
    ensures Resolved(Apply(u, a).profile.preferredLeader) == Some(RewardOf(u, a).value.0)
  {
    hide LeaderFromId;
    LeaderFromIdIs("", RewardOf(u, a).value.0);
  }

  // ---- What is worn ----

  ghost predicate EquippedOwned(p: Profile) {
    p.selectedSkin.Some? ==> p.selectedSkin.value in p.ownedSkins
  }

  ghost predicate DressedReplacements(updates: seq<Update>) {
    forall i :: 0 <= i < |updates| && updates[i].op.UpdateProfile? ==> EquippedOwned(updates[i].op.replacement)
  }

  /** The equipped skin is owned at every point of a run exactly if no replaced profile wears one it does not own. */
  lemma EquippedIsOwned(a: Account, updates: seq<Update>)
    requires EquippedOwned(a.profile)
    ensures DressedReplacements(updates) <==>
              forall i :: 0 <= i <= |updates| ==> EquippedOwned(Fold(a, updates[..i]).profile)
  {
    hide Apply, EquippedOwned;
    if DressedReplacements(updates) {
      forall i | 0 <= i <= |updates|
        ensures EquippedOwned(Fold(a, updates[..i]).profile)
      {
        OwnedUpTo(a, updates, i);
      }
    } else {
      var i :| 0 <= i < |updates| && updates[i].op.UpdateProfile? && !EquippedOwned(updates[i].op.replacement);
      assert updates[..i + 1][..i] == updates[..i];
      ReplacedIs(updates[i], Fold(a, updates[..i]));
      assert Fold(a, updates[..i + 1]).profile == updates[i].op.replacement;
    }
  }

  lemma {:induction false} OwnedUpTo(a: Account, updates: seq<Update>, i: nat)
    requires EquippedOwned(a.profile) && DressedReplacements(updates) && i <= |updates|
    ensures EquippedOwned(Fold(a, updates[..i]).profile)
  {
    hide Apply, EquippedOwned;
    if i > 0 {
      OwnedUpTo(a, updates, i - 1);
      assert updates[..i][..i - 1] == updates[..i - 1];
      EquipStep(updates[i - 1], Fold(a, updates[..i - 1]));
    }
  }

  lemma EquipStep(u: Update, a: Account)
    requires EquippedOwned(a.profile) && (u.op.UpdateProfile? ==> EquippedOwned(u.op.replacement))
    ensures EquippedOwned(Apply(u, a).profile)
  {
    hide LeaderFromId;
  }

  lemma ReplacedIs(u: Update, a: Account)
    requires u.op.UpdateProfile?
    ensures Apply(u, a).profile == u.op.replacement
  {
  }
}
