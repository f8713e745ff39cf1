/**
 * The community tasks page: a list of task records whose status the start
 * and complete handlers rewrite by id, the completed-task count it shows, and
 * the rule that decides which button a task card offers.
 */
module Tasks {
  import opened Wrappers

  datatype Difficulty = Easy | Medium | Hard

  datatype Status = Available | InProgress | Completed

  datatype Reward = Reward(points: int, reputation: Option<int>)

  datatype Task = Task(id: int, title: string, description: string, reward: Reward,
                       difficulty: Difficulty, status: Status)

  /** The list after every task whose id is `id` is given status `s`; the others are kept. */
  function SetStatus(tasks: seq<Task>, id: int, s: Status): (r: seq<Task>)
    ensures |r| == |tasks|
    ensures forall i :: 0 <= i < |tasks| && tasks[i].id == id ==> r[i] == tasks[i].(status := s)
    ensures forall i :: 0 <= i < |tasks| && tasks[i].id != id ==> r[i] == tasks[i]
  {
    if tasks == [] then []
    else [if tasks[0].id == id then tasks[0].(status := s) else tasks[0]] + SetStatus(tasks[1..], id, s)
  }

  /** An id that matches no task leaves the list as it was. */
  lemma SetStatusNoMatch(tasks: seq<Task>, id: int, s: Status)
    requires forall i :: 0 <= i < |tasks| ==> tasks[i].id != id
    ensures SetStatus(tasks, id, s) == tasks
  {
  }

  /** The update changes statuses only: ids, titles, descriptions, rewards and difficulties stay. */
  lemma SetStatusKeepsOtherFields(tasks: seq<Task>, id: int, s: Status, i: int)
    requires 0 <= i < |tasks|
    ensures SetStatus(tasks, id, s)[i].(status := tasks[i].status) == tasks[i]
  {
  }

  /** The number of completed tasks, as `tasks.filter(t => t.status === "completed").length`. */
  function CompletedCount(tasks: seq<Task>): (n: nat)
    ensures n <= |tasks|
  {
    if tasks == [] then 0
    else (if tasks[0].status == Completed then 1 else 0) + CompletedCount(tasks[1..])
  }

  /** The statuses of the list, in order. */
  function Statuses(tasks: seq<Task>): (r: seq<Status>)
    ensures |r| == |tasks| && forall i :: 0 <= i < |tasks| ==> r[i] == tasks[i].status
  {
    seq(|tasks|, i requires 0 <= i < |tasks| => tasks[i].status)
  }

  /** The count shown is the multiplicity of `completed` among the statuses. */
  lemma {:induction false} CompletedCountIsMultiplicity(tasks: seq<Task>)
    ensures CompletedCount(tasks) == multiset(Statuses(tasks))[Completed]
  {
    if tasks != [] {
      CompletedCountIsMultiplicity(tasks[1..]);
      assert Statuses(tasks) == [tasks[0].status] + Statuses(tasks[1..]);
    }
  }

  /** No two tasks share an id (the seeded list has this property). */
  predicate UniqueIds(tasks: seq<Task>)
  {
    forall i, j :: 0 <= i < j < |tasks| ==> tasks[i].id != tasks[j].id
  }

  /** Some task with this id is not completed yet. */
  predicate HasOpenTask(tasks: seq<Task>, id: int)
  {
    exists i :: 0 <= i < |tasks| && tasks[i].id == id && tasks[i].status != Completed
  }

  /** Some task with this id is completed. */
  predicate HasCompletedTask(tasks: seq<Task>, id: int)
  {
    exists i :: 0 <= i < |tasks| && tasks[i].id == id && tasks[i].status == Completed
  }

  lemma TailUniqueIds(tasks: seq<Task>)
    requires tasks != [] && UniqueIds(tasks)
    ensures UniqueIds(tasks[1..])
    ensures forall i :: 0 <= i < |tasks[1..]| ==> tasks[1..][i].id != tasks[0].id
  {
    forall i | 0 <= i < |tasks[1..]| ensures tasks[1..][i].id != tasks[0].id {
      assert tasks[1..][i] == tasks[i + 1];
    }
  }

  lemma SetStatusTail(tasks: seq<Task>, id: int, s: Status)
    requires tasks != []
    ensures SetStatus(tasks, id, s)[1..] == SetStatus(tasks[1..], id, s)
  {
  }

  lemma OpenInTail(tasks: seq<Task>, id: int)
    requires tasks != []
    ensures HasOpenTask(tasks, id) <==>
      (tasks[0].id == id && tasks[0].status != Completed) || HasOpenTask(tasks[1..], id)
  {
    var tail := tasks[1..];
    if HasOpenTask(tail, id) {
      var i :| 0 <= i < |tail| && tail[i].id == id && tail[i].status != Completed;
      assert tasks[i + 1] == tail[i];
    }
    if HasOpenTask(tasks, id) {
      var i :| 0 <= i < |tasks| && tasks[i].id == id && tasks[i].status != Completed;
      if i > 0 { assert tail[i - 1] == tasks[i]; }
    }
  }

  lemma CompletedInTail(tasks: seq<Task>, id: int)
    requires tasks != []
    ensures HasCompletedTask(tasks, id) <==>
      (tasks[0].id == id && tasks[0].status == Completed) || HasCompletedTask(tasks[1..], id)
  {
    var tail := tasks[1..];
    if HasCompletedTask(tail, id) {
      var i :| 0 <= i < |tail| && tail[i].id == id && tail[i].status == Completed;
      assert tasks[i + 1] == tail[i];
    }
    if HasCompletedTask(tasks, id) {
      var i :| 0 <= i < |tasks| && tasks[i].id == id && tasks[i].status == Completed;
      if i > 0 { assert tail[i - 1] == tasks[i]; }
    }
  }

  /** Completing a task that is not yet completed adds one to the count; with
      unique ids nothing else moves it. */
  lemma {:induction false} CompleteTaskCount(tasks: seq<Task>, id: int)
    requires UniqueIds(tasks)
    ensures CompletedCount(SetStatus(tasks, id, Completed))
      == CompletedCount(tasks) + (if HasOpenTask(tasks, id) then 1 else 0)
  {
    if tasks != [] {
      TailUniqueIds(tasks);
      SetStatusTail(tasks, id, Completed);
      OpenInTail(tasks, id);
      CompleteTaskCount(tasks[1..], id);
    }
  }

  /** Starting a task does not check its status: starting a completed task
      takes one off the count. */
  lemma {:induction false} StartTaskCount(tasks: seq<Task>, id: int)
    requires UniqueIds(tasks)
    ensures CompletedCount(SetStatus(tasks, id, InProgress))
      == CompletedCount(tasks) - (if HasCompletedTask(tasks, id) then 1 else 0)
  {
    if tasks != [] {
      TailUniqueIds(tasks);
      SetStatusTail(tasks, id, InProgress);
      CompletedInTail(tasks, id);
      StartTaskCount(tasks[1..], id);
    }
  }

  // ---------------------------------------------------------------------------
  // What a task card offers

  /** The button a card shows: start for an available task, complete for one
      in progress, none once completed. */
  datatype Action = StartAction | CompleteAction | NoAction

  function Offered(s: Status): (r: Action)
    ensures r == NoAction <==> s == Completed
    ensures r == StartAction <==> s == Available
  {
    match s
    case Available => StartAction
    case InProgress => CompleteAction
    case Completed => NoAction
  }

  /** Position of a status on the path available, in progress, completed. */
  function Rank(s: Status): nat
  {
    match s
    case Available => 0
    case InProgress => 1
    case Completed => 2
  }

  /** The list after the button of card `i` is pressed (nothing happens on a completed card). */
  function Click(tasks: seq<Task>, i: nat): (r: seq<Task>)
    requires i < |tasks|
    ensures |r| == |tasks|
    ensures tasks[i].status == Completed ==> r == tasks
    ensures tasks[i].status != Completed ==> Rank(r[i].status) == Rank(tasks[i].status) + 1
    ensures forall j :: 0 <= j < |tasks| && tasks[j].id != tasks[i].id ==> r[j] == tasks[j]
  {
    match Offered(tasks[i].status)
    case StartAction => SetStatus(tasks, tasks[i].id, InProgress)
    case CompleteAction => SetStatus(tasks, tasks[i].id, Completed)
    case NoAction => tasks
  }

  /** Through the buttons, with unique ids, a click moves the clicked task one
      step along the path and leaves every other task alone. */
  lemma ClickAdvances(tasks: seq<Task>, i: nat)
    requires i < |tasks| && UniqueIds(tasks)
    ensures |Click(tasks, i)| == |tasks| && UniqueIds(Click(tasks, i))
    ensures Rank(Click(tasks, i)[i].status) == if tasks[i].status == Completed then 2 else Rank(tasks[i].status) + 1
    ensures forall j :: 0 <= j < |tasks| && j != i ==> Click(tasks, i)[j] == tasks[j]
  {
  }

  /** The list after a series of clicks on the given cards. */
  function Clicks(tasks: seq<Task>, cards: seq<nat>): seq<Task>
    requires forall k :: 0 <= k < |cards| ==> cards[k] < |tasks|
    decreases cards
  {
    if cards == [] then tasks
    else
      SetStatusLength(tasks, tasks[cards[0]].id);
      Clicks(Click(tasks, cards[0]), cards[1..])
  }

  lemma SetStatusLength(tasks: seq<Task>, id: int)
    ensures forall s :: |SetStatus(tasks, id, s)| == |tasks|
  {
  }

  /** Through the buttons, with unique ids, no status ever moves backwards. */
  lemma {:induction false} ClicksNeverRevert(tasks: seq<Task>, cards: seq<nat>)
    requires UniqueIds(tasks)
    requires forall k :: 0 <= k < |cards| ==> cards[k] < |tasks|
    ensures |Clicks(tasks, cards)| == |tasks|
    ensures forall j :: 0 <= j < |tasks| ==> Rank(Clicks(tasks, cards)[j].status) >= Rank(tasks[j].status)
    ensures forall j :: 0 <= j < |tasks| ==> Clicks(tasks, cards)[j].id == tasks[j].id
    decreases cards
  {
    if cards != [] {
      var next := Click(tasks, cards[0]);
      ClickAdvances(tasks, cards[0]);
      ClicksNeverRevert(next, cards[1..]);
    }
  }

  /** The handlers alone do not guard the path: starting task 1 of the seeded
      list, which is completed, takes it back to in progress. */
  lemma StartHandlerCanRevert()
    ensures MockTasks()[0].status == Completed
    ensures SetStatus(MockTasks(), 1, InProgress)[0].status == InProgress
  {
  }

  /** The button rule needs distinct ids: with two cards sharing an id,
      starting the available one also takes the completed one back. */
  lemma DuplicateIdClickReverts()
    ensures var t := [MockTasks()[1], MockTasks()[0].(id := 2)];
      t[1].status == Completed && Click(t, 0)[1].status == InProgress
  {
  }

  /** The tasks the page is seeded with. */
  function MockTasks(): seq<Task>
  {
    [ Task(1, "完成社区注册", "注册账号并完成个人信息填写", Reward(100, None), Easy, Completed),
      Task(2, "邀请新用户", "邀请一名新用户加入社区，新用户需完成注册", Reward(150, Some(5)), Easy, Available),
      Task(3, "发布内容分享", "在社区发布一篇原创内容，分享您的经验或见解", Reward(200, Some(10)), Medium, Available),
      Task(4, "参与社区投票", "参与社区治理提案的投票", Reward(50, Some(3)), Easy, Available),
      Task(5, "贡献代码", "为社区项目提交代码，修复bug或添加新功能", Reward(500, Some(25)), Hard, InProgress),
      Task(6, "组织社区活动", "组织线上或线下社区活动，至少有10人参与", Reward(300, Some(15)), Medium, Available) ]
  }

  /** The seeded list has distinct ids and one completed task. */
  lemma MockTasksFacts()
    ensures UniqueIds(MockTasks())
    ensures CompletedCount(MockTasks()) == 1
  {
  }

  class TasksPage {
    var tasks: seq<Task>

    constructor ()
      ensures tasks == MockTasks()
    {
      tasks := MockTasks();
    }

    /** `startTask`: every task with this id becomes in progress, whatever its status. */
    method StartTask(id: int)
      modifies this
      ensures tasks == SetStatus(old(tasks), id, InProgress)
    {
      tasks := SetStatus(tasks, id, InProgress);
    }

    /** `completeTask`: every task with this id becomes completed, whatever its status. */
    method CompleteTask(id: int)
      modifies this
      ensures tasks == SetStatus(old(tasks), id, Completed)
    {
      tasks := SetStatus(tasks, id, Completed);
    }

    /** The figure in the statistics panel. */
    function DisplayedCompleted(): (n: nat)
      reads this
      ensures n == multiset(Statuses(tasks))[Completed]
    {
      CompletedCountIsMultiplicity(tasks);
      CompletedCount(tasks)
    }
  }
}
