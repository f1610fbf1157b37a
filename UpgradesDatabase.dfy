/** The static tech tree: nine upgrades in three categories, listed in
    catalog order and turned into a map keyed by id. */
module UpgradesDatabase {
  import opened Models

  const RdPosConsensus := Upgrade(
    "rd_pos_consensus", "PoS Consensus Update",
    "Refactor the core protocol for efficiency and scalability.",
    RAndD, 2_000_000.0, "+20% base price growth for 100 candles.", 100, None)

  const RdQuantumEncryption := Upgrade(
    "rd_quantum_encryption", "Quantum Encryption",
    "Implement next-generation security to deter attackers.",
    RAndD, 5_000_000.0, "-50% chance of negative hack/scandal events for 200 candles.", 200,
    Some("rd_pos_consensus"))

  const RdLayer2Scaling := Upgrade(
    "rd_layer2_scaling", "Layer-2 Scaling Solution",
    "Boost network throughput and reduce transaction costs.",
    RAndD, 3_500_000.0, "+15% background Hype generation for 150 candles.", 150,
    Some("rd_layer2_scaling"))

  const MktSocialBlitz := Upgrade(
    "mkt_social_blitz", "Social Media Blitz",
    "Flood social platforms with targeted advertisements and influencer posts.",
    Marketing, 750_000.0, "Instant +50 Hype and increased retail interest for 80 candles.", 80, None)

  const MktViralMeme := Upgrade(
    "mkt_viral_meme", "Viral \"Meme\" Campaign",
    "Attempt to capture the chaotic energy of the internet. High risk, high reward.",
    Marketing, 1_000_000.0,
    "70% chance of +40 Hype for 100 candles, 30% chance of a small negative 'Cringe' event.", 100,
    Some("mkt_social_blitz"))

  const MktStadiumRights := Upgrade(
    "mkt_stadium_rights", "Stadium Naming Rights",
    "Put our name on a major sports stadium for massive brand recognition.",
    Marketing, 12_000_000.0, "Triggers a 'Mainstream Mania' event for 20 candles.", 20,
    Some("mkt_viral_meme"))

  const CmpOffshoreFoundation := Upgrade(
    "cmp_offshore_foundation", "Offshore Foundation Setup",
    "Establish a legal entity in a jurisdiction with more 'flexible' financial laws.",
    Compliance, 1_500_000.0,
    "-50% transaction taxes for 300 candles, but slightly increases chance of 'Scandal' events.", 300,
    None)

  const CmpExRegulator := Upgrade(
    "cmp_ex_regulator", "Hire Ex-Regulator",
    "Bring on a former regulator as a consultant for their invaluable insight and connections.",
    Compliance, 3_000_000.0, "Grants one-time use ability to nullify a 'Regulatory Crackdown' event.", 0,
    Some("cmp_offshore_foundation"))

  const CmpSandboxApproval := Upgrade(
    "cmp_sandbox_approval", "Regulatory Sandbox Approval",
    "Work with regulators to gain approval for our technology in a controlled environment.",
    Compliance, 4_500_000.0,
    "Greatly increases Institutional Trust and provides immunity to minor negative regulatory news for 250 candles.",
    250, Some("cmp_ex_regulator"))

  /** The catalog in its listed order. */
  const UpgradeList: seq<Upgrade> := [
    RdPosConsensus, RdQuantumEncryption, RdLayer2Scaling,
    MktSocialBlitz, MktViralMeme, MktStadiumRights,
    CmpOffshoreFoundation, CmpExRegulator, CmpSandboxApproval]

  /** The ids of a list of upgrades, as a set. */
  function Ids(us: seq<Upgrade>): set<string> {
    set i | 0 <= i < |us| :: us[i].id
  }

  ghost predicate DistinctIds(us: seq<Upgrade>) {
    forall i, j :: 0 <= i < j < |us| ==> us[i].id != us[j].id
  }

  /** Kotlin's `associateBy { it.id }`: each upgrade under its id, where a
      later upgrade with the same id replaces an earlier one. */
  function AssociateBy(us: seq<Upgrade>): (m: map<string, Upgrade>)
    ensures m.Keys == Ids(us)
    ensures forall k :: k in m ==> m[k].id == k
    ensures forall k :: k in m ==> m[k] in us
  {
    if us == [] then map[]
    else
      var init := us[..|us| - 1];
      var m0 := AssociateBy(init);
      assert Ids(us) == Ids(init) + {us[|us| - 1].id} by {
        forall k | k in Ids(us) ensures k in Ids(init) + {us[|us| - 1].id} {
          var i :| 0 <= i < |us| && us[i].id == k;
          if i < |us| - 1 { assert init[i] == us[i]; }
        }
        forall k | k in Ids(init) ensures k in Ids(us) {
          var i :| 0 <= i < |init| && init[i].id == k;
          assert us[i] == init[i];
        }
      }
      m0[us[|us| - 1].id := us[|us| - 1]]
  }

  /** With distinct ids nothing is overwritten: every upgrade is found under
      its own id and the map has one entry per upgrade. */
  lemma {:induction false} AssociateByFindsEach(us: seq<Upgrade>, i: nat)
    requires DistinctIds(us)
    requires i < |us|
    ensures us[i].id in AssociateBy(us) && AssociateBy(us)[us[i].id] == us[i]
  {
    var init := us[..|us| - 1];
    if i < |us| - 1 {
      assert init[i] == us[i];
      AssociateByFindsEach(init, i);
    }
  }

  /** `UpgradesDatabase.allUpgrades`. */
  const AllUpgrades: map<string, Upgrade> := AssociateBy(UpgradeList)

  lemma UpgradeListDistinct()
    ensures |UpgradeList| == 9
    ensures DistinctIds(UpgradeList)
  {
  }

  /** Every catalog entry is one of the nine listed upgrades, stored under its id,
      and every listed upgrade is in the catalog. */
  lemma AllUpgradesContents()
    ensures forall k :: k in AllUpgrades ==> AllUpgrades[k].id == k
    ensures forall i :: 0 <= i < |UpgradeList| ==>
      UpgradeList[i].id in AllUpgrades && AllUpgrades[UpgradeList[i].id] == UpgradeList[i]
    ensures AllUpgrades.Keys == Ids(UpgradeList)
  {
    UpgradeListDistinct();
    forall i | 0 <= i < |UpgradeList|
      ensures UpgradeList[i].id in AllUpgrades && AllUpgrades[UpgradeList[i].id] == UpgradeList[i]
    {
      AssociateByFindsEach(UpgradeList, i);
    }
  }

  /** The ids of the catalog, written out. */
  const CatalogIds: set<string> := {
    "rd_pos_consensus", "rd_quantum_encryption", "rd_layer2_scaling",
    "mkt_social_blitz", "mkt_viral_meme", "mkt_stadium_rights",
    "cmp_offshore_foundation", "cmp_ex_regulator", "cmp_sandbox_approval"}

  lemma ListedIds()
    ensures Ids(UpgradeList) == CatalogIds
  {
    var us := UpgradeList;
    assert us[0].id == "rd_pos_consensus";
    assert us[1].id == "rd_quantum_encryption";
    assert us[2].id == "rd_layer2_scaling";
    assert us[3].id == "mkt_social_blitz";
    assert us[4].id == "mkt_viral_meme";
    assert us[5].id == "mkt_stadium_rights";
    assert us[6].id == "cmp_offshore_foundation";
    assert us[7].id == "cmp_ex_regulator";
    assert us[8].id == "cmp_sandbox_approval";
  }

  /** The catalog's keys, written out. */
  lemma CatalogKeys()
    ensures AllUpgrades.Keys == CatalogIds
    ensures forall k :: k in AllUpgrades ==> AllUpgrades[k] in UpgradeList
  {
    AllUpgradesContents();
    ListedIds();
  }

  /** Distinct ids make as many keys as upgrades. */
  lemma {:induction false} IdsSize(us: seq<Upgrade>)
    requires DistinctIds(us)
    ensures |Ids(us)| == |us|
  {
    if us != [] {
      var init := us[..|us| - 1];
      var last := us[|us| - 1];
      assert Ids(us) == Ids(init) + {last.id} by {
        forall k | k in Ids(us) ensures k in Ids(init) + {last.id} {
          var i :| 0 <= i < |us| && us[i].id == k;
          if i < |us| - 1 { assert init[i] == us[i]; }
        }
        forall k | k in Ids(init) ensures k in Ids(us) {
          var i :| 0 <= i < |init| && init[i].id == k;
          assert us[i] == init[i];
        }
      }
      forall i | 0 <= i < |init| ensures init[i].id != last.id {
        assert init[i] == us[i];
      }
      IdsSize(init);
    }
  }

  /** The catalog holds exactly nine upgrades. */
  lemma AllUpgradesSize()
    ensures |AllUpgrades| == 9
  {
    UpgradeListDistinct();
    AllUpgradesContents();
    IdsSize(UpgradeList);
    assert |AllUpgrades| == |AllUpgrades.Keys|;
  }

  /** The listed upgrade at position `i` is the catalog entry under its id. */
  lemma ListedEntry(i: nat)
    requires i < |UpgradeList|
    ensures UpgradeList[i].id in AllUpgrades && AllUpgrades[UpgradeList[i].id] == UpgradeList[i]
  {
    assert DistinctIds(UpgradeList);
    AssociateByFindsEach(UpgradeList, i);
  }

  /** Every dependency names an upgrade in the catalog. */
  lemma DependenciesResolve()
    ensures forall k :: k in AllUpgrades && AllUpgrades[k].dependsOn.Some? ==>
      AllUpgrades[k].dependsOn.value in AllUpgrades
  {
    ListedIds();
    assert forall u :: u in UpgradeList && u.dependsOn.Some? ==> u.dependsOn.value in CatalogIds;
  }

  /** The technology screen's lock rule: a dependency is set and not yet
      purchased. An upgrade without a dependency is never locked. */
  function IsLocked(u: Upgrade, purchased: set<string>): (r: bool)
    ensures u.dependsOn.None? ==> !r
  {
    u.dependsOn.Some? && u.dependsOn.value !in purchased
  }

  /** Buying more never locks an upgrade again. */
  lemma UnlockIsPermanent(u: Upgrade, purchased: set<string>, more: set<string>)
    requires purchased <= more && !IsLocked(u, purchased)
    ensures !IsLocked(u, more)
  {
  }

  /** `rd_layer2_scaling` depends on itself, so it is locked in every state in
      which it has not already been purchased: it can never be unlocked. */
  lemma Layer2ScalingNeverUnlocks(purchased: set<string>)
    ensures "rd_layer2_scaling" in AllUpgrades
    ensures AllUpgrades["rd_layer2_scaling"].dependsOn == Some("rd_layer2_scaling")
    ensures IsLocked(AllUpgrades["rd_layer2_scaling"], purchased) <==> "rd_layer2_scaling" !in purchased
  {
    ListedEntry(2);
  }

  /** The cheapest upgrade costs 750,000 (`mkt_social_blitz`). */
  lemma CheapestUpgrade()
    ensures forall k :: k in AllUpgrades ==> AllUpgrades[k].cost >= 750_000.0
    ensures "mkt_social_blitz" in AllUpgrades && AllUpgrades["mkt_social_blitz"].cost == 750_000.0
  {
    ListedEntry(3);
    assert forall u :: u in UpgradeList ==> u.cost >= 750_000.0;
  }

  /** No upgrade's effect duration is negative. */
  lemma DurationsNonNegative()
    ensures forall k :: k in AllUpgrades ==> AllUpgrades[k].effectDurationInCandles >= 0
  {
    assert forall u :: u in UpgradeList ==> u.effectDurationInCandles >= 0;
  }

  /** `cmp_ex_regulator` is the only upgrade whose effect duration is zero. */
  lemma OnlyExRegulatorIsInstant()
    ensures "cmp_ex_regulator" in AllUpgrades
    ensures forall k :: k in AllUpgrades ==>
      (AllUpgrades[k].effectDurationInCandles == 0 <==> k == "cmp_ex_regulator")
  {
    ListedEntry(7);
    forall k | k in AllUpgrades && AllUpgrades[k].effectDurationInCandles == 0
      ensures k == "cmp_ex_regulator"
    {
      var u := AllUpgrades[k];
      assert u in UpgradeList && u.id == k;
      assert u == CmpExRegulator;
    }
  }

  /** The one upgrade of each category that has no dependency. */
  function RootOf(c: UpgradeCategory): string {
    match c
    case RAndD => "rd_pos_consensus"
    case Marketing => "mkt_social_blitz"
    case Compliance => "cmp_offshore_foundation"
  }

  /** Only the root of its category has no dependency. */
  lemma OnlyRootsAreFree()
    ensures forall k :: k in AllUpgrades && AllUpgrades[k].dependsOn.None? ==>
      k == RootOf(AllUpgrades[k].category)
  {
    assert forall u :: u in UpgradeList && u.dependsOn.None? ==>
      u == RdPosConsensus || u == MktSocialBlitz || u == CmpOffshoreFoundation;
  }

  /** Each category's root is in the catalog, in that category, with no dependency. */
  lemma RootsAreFree(c: UpgradeCategory)
    ensures RootOf(c) in AllUpgrades
    ensures AllUpgrades[RootOf(c)].dependsOn.None? && AllUpgrades[RootOf(c)].category == c
  {
    match c
    case RAndD => ListedEntry(0);
    case Marketing => ListedEntry(3);
    case Compliance => ListedEntry(6);
  }
}
