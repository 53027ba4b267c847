/** The rewards list of the project page: where the backed reward sits, how many
    rewards there are, and what clicking a reward starts. */
module RewardsFragment {
  import opened Streams

  datatype Reward = Reward(id: int)

  datatype Project = Project(id: int, isBacking: bool, rewards: Option<seq<Reward>>)

  /** The project the screen was configured with (its other fields play no part). */
  datatype ProjectData = ProjectData(project: Project)

  /** Where on screen the clicked reward card was. */
  datatype ScreenLocation = ScreenLocation(x: int, y: int, height: int, width: int)

  datatype PledgeFlowContext = ChangeReward | NewPledge
  datatype PledgeReason = UpdateReward | Pledge

  datatype PledgeData = PledgeData(flowContext: PledgeFlowContext, projectData: ProjectData, reward: Reward,
                                   screenLocation: ScreenLocation)

  /** `BackingUtils.isBacked(project, reward)`, whose body is not part of this model. */
  type IsBacked = (Project, Reward) -> bool

  /** The position of the first reward of `rs`, from `from` on, that the project
      backs, or 0 when there is none. */
  ghost function FirstBacked(isBacked: IsBacked, p: Project, rs: seq<Reward>, from: nat): (i: nat)
    requires from <= |rs|
    ensures (exists j :: from <= j < |rs| && isBacked(p, rs[j])) ==>
              from <= i < |rs| && isBacked(p, rs[i]) && (forall j :: from <= j < i ==> !isBacked(p, rs[j]))
    ensures (forall j :: from <= j < |rs| ==> !isBacked(p, rs[j])) ==> i == 0
    decreases |rs| - from
  {
    if from == |rs| then 0
    else if isBacked(p, rs[from]) then from
    else FirstBacked(isBacked, p, rs, from + 1)
  }

  /** `indexOfBackedReward(project)`: the smallest index whose reward is backed;
      0 when none is, or when the project has no reward list. */
  method IndexOfBackedReward(isBacked: IsBacked, project: Project) returns (index: nat)
    ensures project.rewards.None? ==> index == 0
    ensures project.rewards.Some? ==> index == FirstBacked(isBacked, project, project.rewards.value, 0)
    ensures project.rewards.Some? && (exists j :: 0 <= j < |project.rewards.value| && isBacked(project, project.rewards.value[j])) ==>
              && index < |project.rewards.value|
              && isBacked(project, project.rewards.value[index])
              && (forall j :: 0 <= j < index ==> !isBacked(project, project.rewards.value[j]))
    ensures project.rewards.Some? && (forall j :: 0 <= j < |project.rewards.value| ==> !isBacked(project, project.rewards.value[j])) ==>
              index == 0
  {
    if project.rewards.Some? {
      var rs := project.rewards.value;
      var i := 0;
      while i < |rs|
        invariant 0 <= i <= |rs|
        invariant forall j :: 0 <= j < i ==> !isBacked(project, rs[j])
        invariant FirstBacked(isBacked, project, rs, 0) == FirstBacked(isBacked, project, rs, i)
      {
        if isBacked(project, rs[i]) {
          return i;
        }
        i := i + 1;
      }
    }
    return 0;
  }

  /** The backed position ignores everything after the first backed reward. */
  lemma FirstBackedIgnoresTail(isBacked: IsBacked, p: Project, rs: seq<Reward>, more: seq<Reward>, i: nat)
    requires i < |rs| && isBacked(p, rs[i])
    requires forall j :: 0 <= j < i ==> !isBacked(p, rs[j])
    ensures FirstBacked(isBacked, p, rs + more, 0) == i
  {
    assert (rs + more)[i] == rs[i];
    assert forall j :: 0 <= j < i ==> (rs + more)[j] == rs[j];
  }

  /** `pledgeDataAndPledgeReason`: a project the user already backs changes its
      reward, any other project starts a new pledge. */
  function PledgeDataAndPledgeReason(projectData: ProjectData, reward: Reward, screenLocation: ScreenLocation)
    : (r: (PledgeData, PledgeReason))
    ensures r.0.flowContext == ChangeReward <==> projectData.project.isBacking
    ensures r.1 == UpdateReward <==> projectData.project.isBacking
    ensures r.0.flowContext == NewPledge <==> r.1 == Pledge
    ensures r.0.projectData == projectData && r.0.reward == reward && r.0.screenLocation == screenLocation
  {
    var (context, reason) :=
      if projectData.project.isBacking then (ChangeReward, UpdateReward) else (NewPledge, Pledge);
    (PledgeData(context, projectData, reward, screenLocation), reason)
  }

  /** `rewards()?.size ?: 0` */
  function RewardsCount(project: Project): (n: nat)
    ensures project.rewards.Some? ==> n == |project.rewards.value|
    ensures project.rewards.None? ==> n == 0
  {
    match project.rewards
    case Some(rs) => |rs|
    case None => 0
  }

  class RewardsFragmentViewModel {
    const isBacked: IsBacked

    /** Emission histories of the outputs. */
    var project: seq<ProjectData>
    var backedRewardPosition: seq<nat>
    var rewardsCount: seq<nat>
    var showPledgeFragment: seq<(PledgeData, PledgeReason)>

    /** The reward count follows every configured project, and the backed position
        never repeats itself. */
    ghost predicate Valid()
      reads this
    {
      && |rewardsCount| == |project|
      && (forall i :: 0 <= i < |project| ==> rewardsCount[i] == RewardsCount(project[i].project))
      && NoConsecutiveRepeats(backedRewardPosition)
    }

    constructor (isBacked: IsBacked)
      ensures Valid()
      ensures this.isBacked == isBacked
      ensures project == [] && backedRewardPosition == [] && rewardsCount == [] && showPledgeFragment == []
    {
      this.isBacked := isBacked;
      project, backedRewardPosition, rewardsCount, showPledgeFragment := [], [], [], [];
    }

    /** `configureWith(projectData)`: the project is emitted, its reward count too,
        and, for a project the user backs, the position of its backed reward unless
        it equals the last position emitted. */
    method ConfigureWith(projectData: ProjectData)
      requires Valid()
      modifies this`project, this`backedRewardPosition, this`rewardsCount
      ensures Valid()
      ensures project == old(project) + [projectData]
      ensures rewardsCount == old(rewardsCount) + [RewardsCount(projectData.project)]
      ensures !projectData.project.isBacking ==> backedRewardPosition == old(backedRewardPosition)
      ensures projectData.project.isBacking ==>
                backedRewardPosition == AppendDistinct(old(backedRewardPosition),
                  if projectData.project.rewards.None? then 0
                  else FirstBacked(isBacked, projectData.project, projectData.project.rewards.value, 0))
    {
      project := project + [projectData];
      var p := projectData.project;
      if p.isBacking {
        var index := IndexOfBackedReward(isBacked, p);
        backedRewardPosition := AppendDistinct(backedRewardPosition, index);
      }
      rewardsCount := rewardsCount + [RewardsCount(p)];
    }

    /** `rewardClicked(location, reward)`: paired with the latest configured project;
        a click before any project is configured is dropped. */
    method RewardClicked(screenLocation: ScreenLocation, reward: Reward)
      requires Valid()
      modifies this`showPledgeFragment
      ensures Valid()
      ensures project == [] ==> showPledgeFragment == old(showPledgeFragment)
      ensures project != [] ==>
                showPledgeFragment == old(showPledgeFragment)
                  + [PledgeDataAndPledgeReason(project[|project| - 1], reward, screenLocation)]
    {
      if project != [] {
        showPledgeFragment := showPledgeFragment + [PledgeDataAndPledgeReason(project[|project| - 1], reward, screenLocation)];
      }
    }
  }
}
