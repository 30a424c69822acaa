/**
  Incoming text messages (client.py:34-41, 44-54, 106-134).

  A handler that needs the user's next message registers the user in the
  process-wide `waiting_for_messages` map with an empty slot, and waits
  until `handle_message` has put a message into that slot; it then pops
  the slot. `handle_message` gives a message from a registered user to the
  waiting handler and does nothing else with it. Any other message is
  answered by comparing its text with three fixed commands.
*/
module Router {
  import opened Wrappers
  import opened Pages
  import opened Callbacks

  datatype ChatKind = Private | Group | Supergroup | Channel

  /** The parts of an aiogram `Message` the handlers read. `text` is `None` for a message without text. */
  datatype Message = Message(fromId: int, chatKind: ChatKind, text: Option<string>)

  /** `waiting_for_messages`: user id to an empty slot (`None`) or the message that filled it. */
  type Pending = map<int, Option<Message>>

  /** `waiting_for_messages[user_id] = None` (client.py:38). */
  function Register(w: Pending, userId: int): Pending {
    w[userId := None]
  }

  /** client.py:108-110: a message from a registered user fills that user's slot. */
  function Deposit(w: Pending, message: Message): Pending {
    if message.fromId in w then w[message.fromId := Some(message)] else w
  }

  /**
    One test of the loop condition of client.py:39; once the slot is filled,
    `waiting_for_messages.pop(user_id)` (client.py:41). `None` means the
    handler keeps waiting.
  */
  function Take(w: Pending, userId: int): (Option<Message>, Pending)
    requires userId in w
  {
    if w[userId].None? then (None, w) else (w[userId], w - {userId})
  }

  /** Every filled slot holds a message from the user it belongs to. */
  ghost predicate SlotsOwned(w: Pending) {
    forall u :: u in w && w[u].Some? ==> w[u].value.fromId == u
  }

  lemma OperationsKeepSlotsOwned(w: Pending, userId: int, message: Message)
    requires SlotsOwned(w)
    ensures SlotsOwned(Register(w, userId))
    ensures SlotsOwned(Deposit(w, message))
    ensures userId in w ==> SlotsOwned(Take(w, userId).1)
    ensures userId in w && Take(w, userId).0.Some? ==> Take(w, userId).0.value.fromId == userId
  {
  }

  /**
    The whole prompt: after registering, the handler finds nothing until the
    user's next message arrives; then it gets exactly that message, and the
    map is what it was before, without the user.
  */
  lemma PromptRoundTrip(w: Pending, userId: int, reply: Message)
    requires reply.fromId == userId
    ensures Take(Register(w, userId), userId) == (None, Register(w, userId))
    ensures Take(Deposit(Register(w, userId), reply), userId) == (Some(reply), w - {userId})
  {
    var filled := Deposit(Register(w, userId), reply);
    assert filled - {userId} == w - {userId};
  }

  /** Registering, depositing and taking touch only the slot of the one user involved. */
  lemma OtherUsersUntouched(w: Pending, userId: int, message: Message, other: int)
    requires other != userId && other != message.fromId
    ensures other in Register(w, userId) <==> other in w
    ensures other in Deposit(w, message) <==> other in w
    ensures userId in w ==> (other in Take(w, userId).1 <==> other in w)
    ensures other in w ==> Register(w, userId)[other] == w[other] && Deposit(w, message)[other] == w[other]
    ensures other in w && userId in w ==> Take(w, userId).1[other] == w[other]
  {
  }

  /** Two messages before the handler looks: the second overwrites the first, which is lost. */
  lemma LaterReplyWins(w: Pending, first: Message, second: Message)
    requires first.fromId == second.fromId && first.fromId in w
    ensures Take(Deposit(Deposit(w, first), second), first.fromId).0 == Some(second)
  {
  }

  datatype Command = SendMenu | CreateProject | ListProjects | NoCommand

  const StartCommand := "/start"
  const CreateProjectLabel := "Создать проект"
  const ListProjectsLabel := "Посмотреть список проектов"
  const LikesSentLabel := "Лайки, которые я оставил"
  const LikesReceivedLabel := "Лайки, которые поставили мне"

  /** The buttons of the reply keyboard `send_menu` shows, top to bottom (client.py:44-49). */
  const MenuLabels := [CreateProjectLabel, ListProjectsLabel, LikesSentLabel, LikesReceivedLabel]

  /** The `if`/`elif` chain of client.py:117-134 on `message.text`. */
  function Route(text: Option<string>): Command {
    if text == Some(StartCommand) then SendMenu
    else if text == Some(CreateProjectLabel) then CreateProject
    else if text == Some(ListProjectsLabel) then ListProjects
    else NoCommand
  }

  /**
    Of the four menu buttons only the first two are answered; the two like
    buttons fall through every branch, as does any other text or no text.
  */
  lemma MenuRouting()
    ensures Route(Some(MenuLabels[0])) == CreateProject
    ensures Route(Some(MenuLabels[1])) == ListProjects
    ensures Route(Some(MenuLabels[2])) == NoCommand
    ensures Route(Some(MenuLabels[3])) == NoCommand
    ensures Route(None) == NoCommand
  {
  }

  /** A text is acted on exactly when it is `/start` or one of the first two menu labels. */
  lemma RouteRecognises(text: Option<string>)
    ensures Route(text) != NoCommand <==> text.Some? && (text.value == StartCommand || text.value in MenuLabels[..2])
  {
    assert MenuLabels[..2] == [CreateProjectLabel, ListProjectsLabel];
  }

  /** The reply to "Посмотреть список проектов": the page of project 1 (client.py:133-134). */
  function ListProjectsReply(table: seq<Project>): Payload {
    PageFor(table, 1)
  }

  /** The list starts on the page that a `show1` button opens. */
  lemma ListProjectsMatchesShow(table: seq<Project>)
    ensures HandleButtonCallback(ShowData(1), table) == Some(ListProjectsReply(table))
  {
    ShowDataRoundTrip(1);
  }

  /** What `handle_message` does with one message. */
  datatype Handling =
    | Deposited
    | Routed(warnedNotPrivate: bool, createdUser: bool, command: Command)

  /** The project `Project(name=..., description=..., creator_id=...)` of client.py:125-129. */
  datatype NewProject = NewProject(name: Option<string>, description: Option<string>, creatorId: int)

  function ProjectFromDialogue(origin: Message, nameReply: Message, descriptionReply: Message): NewProject {
    NewProject(nameReply.text, descriptionReply.text, origin.fromId)
  }

  /**
    The process state the handlers share: the pending-reply map, and the
    telegram ids that have a `user` row (the store's part that
    `handle_message` reads and writes).
  */
  class Bot {
    var waitingForMessages: Pending
    var registeredUsers: set<int>

    ghost predicate Valid()
      reads this
    {
      SlotsOwned(waitingForMessages)
    }

    constructor (users: set<int>)
      ensures Valid()
      ensures waitingForMessages == map[] && registeredUsers == users
    {
      waitingForMessages := map[];
      registeredUsers := users;
    }

    /** The first step of `wait_for_message` (client.py:38). */
    method BeginWait(userId: int)
      requires Valid()
      modifies this
      ensures Valid()
      ensures waitingForMessages == Register(old(waitingForMessages), userId)
      ensures registeredUsers == old(registeredUsers)
    {
      OperationsKeepSlotsOwned(waitingForMessages, userId, Message(userId, Private, None));
      waitingForMessages := waitingForMessages[userId := None];
    }

    /** One pass of the loop of `wait_for_message` (client.py:39-41). */
    method PollReply(userId: int) returns (reply: Option<Message>)
      requires Valid() && userId in waitingForMessages
      modifies this
      ensures Valid()
      ensures (reply, waitingForMessages) == Take(old(waitingForMessages), userId)
      ensures reply.Some? ==> reply.value.fromId == userId
      ensures registeredUsers == old(registeredUsers)
    {
      OperationsKeepSlotsOwned(waitingForMessages, userId, Message(userId, Private, None));
      if waitingForMessages[userId].None? {
        reply := None;
      } else {
        reply := waitingForMessages[userId];
        waitingForMessages := waitingForMessages - {userId};
      }
    }

    /**
      `handle_message` (client.py:106-134): a registered user's message goes
      to the waiting handler and nothing else happens; otherwise a warning
      outside private chats, a `user` row for a new sender, and the command
      the text names.
    */
    method HandleMessage(message: Message) returns (h: Handling)
      requires Valid()
      modifies this
      ensures Valid()
      ensures waitingForMessages == Deposit(old(waitingForMessages), message)
      ensures message.fromId in old(waitingForMessages) ==>
        h == Deposited && registeredUsers == old(registeredUsers)
      ensures message.fromId !in old(waitingForMessages) ==>
        && h == Routed(message.chatKind != Private, message.fromId !in old(registeredUsers), Route(message.text))
        && registeredUsers == old(registeredUsers) + {message.fromId}
    {
      OperationsKeepSlotsOwned(waitingForMessages, message.fromId, message);
      if message.fromId in waitingForMessages {
        waitingForMessages := waitingForMessages[message.fromId := Some(message)];
        return Deposited;
      }
      var warned := message.chatKind != Private;
      var created := message.fromId !in registeredUsers;
      if created {
        registeredUsers := registeredUsers + {message.fromId};
      }
      h := Routed(warned, created, Route(message.text));
    }
  }

  /**
    The "create project" dialogue of client.py:119-131 for a first-time
    user: the handler asks twice, the two answers reach it through the
    pending map, and the project it stores has the first answer as name,
    the second as description and the sender as creator. Afterwards the
    user is no longer waited for, so the next message is routed again.
  */
  method CreateProjectDialogue(userId: int, name: string, description: string) returns (p: NewProject, after: Handling)
    ensures p == NewProject(Some(name), Some(description), userId)
    ensures after == Routed(false, false, SendMenu)
  {
    var bot := new Bot({});
    var origin := Message(userId, Private, Some(CreateProjectLabel));
    var h := bot.HandleMessage(origin);
    assert h == Routed(false, true, CreateProject);

    bot.BeginWait(userId);
    var nameReply := bot.PollReply(userId);
    assert nameReply == None;
    h := bot.HandleMessage(Message(userId, Private, Some(name)));
    assert h == Deposited;
    nameReply := bot.PollReply(userId);

    bot.BeginWait(userId);
    var descriptionReply := bot.PollReply(userId);
    h := bot.HandleMessage(Message(userId, Private, Some(description)));
    descriptionReply := bot.PollReply(userId);

    p := ProjectFromDialogue(origin, nameReply.value, descriptionReply.value);
    after := bot.HandleMessage(Message(userId, Private, Some(StartCommand)));
  }

  /**
    An answer that arrives before the dialogue waits for it: the description
    is sent while the handler is still replying at client.py:122, before
    `wait_for_message` registers the user again at client.py:123. It goes
    through the `if`/`elif` chain like any other message and is lost to the
    dialogue.
  */
  method EarlyAnswerIsRouted(userId: int, name: string, description: string) returns (h: Handling)
    ensures h == Routed(false, false, Route(Some(description)))
  {
    var bot := new Bot({userId});
    bot.BeginWait(userId);
    h := bot.HandleMessage(Message(userId, Private, Some(name)));
    var nameReply := bot.PollReply(userId);
    assert nameReply == Some(Message(userId, Private, Some(name)));
    h := bot.HandleMessage(Message(userId, Private, Some(description)));
  }
}
