/**
 * The local chat history of hooks/use-local-storage.ts: a list of chats
 * kept under one key of the browser's key-value store, and the id of the
 * current chat under another.
 *
 * The store is a class with one field per key. A field holds None when the
 * key is missing. The history key holds either a serialised list of chats
 * or text on which `JSON.parse` fails (the empty string included).
 * `Date.now()` is the parameter `now`.
 */
module ChatStore {
  import opened Options

  /** The key of the chat list; the model keeps its value in `ChatHistory.history`. */
  const StorageKey := "chat_local_history"
  /** The key of the current chat's id; the model keeps its value in `ChatHistory.currentChatId`. */
  const CurrentChatKey := "current_local_chat_id"

  /** The title `saveChat` uses when the caller passes none. */
  const DefaultTitle := "New Chat"

  /** A chat message; the store copies messages and never looks inside them. */
  type Message(==)

  datatype Chat = Chat(id: string, messages: seq<Message>, title: string, createdAt: int, updatedAt: int)

  /** What the history key holds: a serialised list, or text that is not JSON. */
  datatype Stored = ChatList(chats: seq<Chat>) | Unparsable

  /** The position of the first chat with id `chatId`, or None: `findIndex`, with -1 as None. */
  function FindIndex(chats: seq<Chat>, chatId: string): (r: Option<nat>)
    ensures r.None? <==> forall k | 0 <= k < |chats| :: chats[k].id != chatId
    ensures r.Some? ==> r.value < |chats| && chats[r.value].id == chatId
                        && forall k | 0 <= k < r.value :: chats[k].id != chatId
  {
    if chats == [] then None
    else if chats[0].id == chatId then Some(0)
    else match FindIndex(chats[1..], chatId)
      case None => None
      case Some(k) => Some(k + 1)
  }

  /**
   * The list `saveChat` writes: the first chat with `chatId` gets the new
   * messages, title and update time, or a new chat is appended at the end.
   */
  function Upsert(chats: seq<Chat>, chatId: string, messages: seq<Message>, title: string, now: int): seq<Chat> {
    match FindIndex(chats, chatId)
    case Some(i) => chats[i := chats[i].(messages := messages, title := title, updatedAt := now)]
    case None => chats + [Chat(chatId, messages, title, now, now)]
  }

  /** `chats.filter((c) => c.id !== chatId)`. */
  function Without(chats: seq<Chat>, chatId: string): (r: seq<Chat>)
    ensures |r| <= |chats|
  {
    if chats == [] then []
    else (if chats[0].id == chatId then [] else [chats[0]]) + Without(chats[1..], chatId)
  }

  class ChatHistory {
    /** The value under `StorageKey`. */
    var history: Option<Stored>
    /** The value under `CurrentChatKey`. */
    var currentChatId: Option<string>

    /** A store with neither key. */
    constructor ()
      ensures history.None? && currentChatId.None?
    {
      history := None;
      currentChatId := None;
    }

    /** `getAllChats`: the stored list, or [] when the key is missing or does not parse. */
    function GetAllChats(): (chats: seq<Chat>)
      reads this
      ensures history.Some? && history.value.ChatList? ==> chats == history.value.chats
      ensures history.None? || history.value.Unparsable? ==> chats == []
    {
      match history
      case Some(ChatList(chats)) => chats
      case _ => []
    }

    /** `getCurrentChatId`: the stored id, or null. */
    function GetCurrentChatId(): Option<string>
      reads this
    {
      currentChatId
    }

    /** `setCurrentChatId`: only the current-chat key changes. */
    method SetCurrentChatId(chatId: string)
      modifies this
      ensures GetCurrentChatId() == Some(chatId)
      ensures history == old(history)
    {
      currentChatId := Some(chatId);
    }

    /** `getChat`: the first stored chat with id `chatId`, or null. */
    function GetChat(chatId: string): (r: Option<Chat>)
      reads this
      ensures r.Some? <==> exists k | 0 <= k < |GetAllChats()| :: GetAllChats()[k].id == chatId
      ensures r.Some? ==> r.value.id == chatId && r.value in GetAllChats()
      ensures r.Some? ==> exists k | 0 <= k < |GetAllChats()| :: GetAllChats()[k] == r.value
                            && forall m | 0 <= m < k :: GetAllChats()[m].id != chatId
    {
      match FindIndex(GetAllChats(), chatId)
      case Some(i) => Some(GetAllChats()[i])
      case None => None
    }

    /**
     * `saveChat(chatId, messages, title)`: reads the list, overwrites the
     * first chat with that id or pushes a new one, and writes the list back.
     * A missing title is `DefaultTitle`.
     */
    method SaveChat(chatId: string, messages: seq<Message>, title: Option<string>, now: int)
      modifies this
      ensures history == Some(ChatList(Upsert(old(GetAllChats()), chatId, messages, title.GetOr(DefaultTitle), now)))
      ensures currentChatId == old(currentChatId)
    {
      var t := title.GetOr(DefaultTitle);
      var chats := GetAllChats();
      var existingIndex := FindIndex(chats, chatId);
      if existingIndex.Some? {
        var i := existingIndex.value;
        chats := chats[i := chats[i].(messages := messages, title := t, updatedAt := now)];
      } else {
        chats := chats + [Chat(chatId, messages, t, now, now)];
      }
      history := Some(ChatList(chats));
    }

    /** `deleteChat(chatId)`: writes back the list without the chats that have that id. */
    method DeleteChat(chatId: string)
      modifies this
      ensures history == Some(ChatList(Without(old(GetAllChats()), chatId)))
      ensures currentChatId == old(currentChatId)
    {
      var chats := GetAllChats();
      var filtered := Without(chats, chatId);
      history := Some(ChatList(filtered));
    }

    /** `clearAll`: both keys are removed. */
    method ClearAll()
      modifies this
      ensures history.None? && currentChatId.None?
      ensures GetAllChats() == [] && GetCurrentChatId().None?
    {
      history := None;
      currentChatId := None;
    }
  }

  // ---------------------------------------------------------------------
  // What saving and deleting promise

  /**
   * Saving under an id that is present overwrites the first chat with it:
   * same length, same id and creation time, the new messages, title and
   * update time.
   */
  lemma UpsertExisting(chats: seq<Chat>, chatId: string, messages: seq<Message>, title: string, now: int, i: nat)
    requires i < |chats| && chats[i].id == chatId
    requires forall k | 0 <= k < i :: chats[k].id != chatId
    ensures var r := Upsert(chats, chatId, messages, title, now);
            && |r| == |chats|
            && r[i] == Chat(chatId, messages, title, chats[i].createdAt, now)
            && forall k | 0 <= k < |chats| && k != i :: r[k] == chats[k]
  {
  }

  /** Saving under an absent id appends one chat whose creation and update times are `now`. */
  lemma UpsertAbsent(chats: seq<Chat>, chatId: string, messages: seq<Message>, title: string, now: int)
    requires forall k | 0 <= k < |chats| :: chats[k].id != chatId
    ensures Upsert(chats, chatId, messages, title, now) == chats + [Chat(chatId, messages, title, now, now)]
  {
  }

  /** After saving, the id is present, and `getChat` finds the saved messages and title. */
  lemma SaveThenGet(chats: seq<Chat>, chatId: string, messages: seq<Message>, title: string, now: int)
    ensures var r := Upsert(chats, chatId, messages, title, now);
            var i := FindIndex(r, chatId);
            i.Some? && r[i.value].messages == messages && r[i.value].title == title && r[i.value].updatedAt == now
  {
    var r := Upsert(chats, chatId, messages, title, now);
    match FindIndex(chats, chatId)
    case Some(i) =>
      assert r[i].id == chatId;
    case None =>
      assert r[|chats|].id == chatId;
  }

  /** Every chat with another id keeps its position and its value. */
  lemma UpsertKeepsOthers(chats: seq<Chat>, chatId: string, messages: seq<Message>, title: string, now: int)
    ensures var r := Upsert(chats, chatId, messages, title, now);
            && |chats| <= |r| <= |chats| + 1
            && forall k | 0 <= k < |chats| && chats[k].id != chatId :: r[k] == chats[k]
  {
  }

  /** Deleting leaves no chat with the id and keeps every other chat. */
  lemma {:induction false} WithoutRemovesId(chats: seq<Chat>, chatId: string)
    ensures forall c :: c in Without(chats, chatId) <==> c in chats && c.id != chatId
  {
    if chats != [] {
      WithoutRemovesId(chats[1..], chatId);
      assert chats == [chats[0]] + chats[1..];
    }
  }

  /** Deleting keeps the relative order: it distributes over concatenation. */
  lemma {:induction false} WithoutKeepsOrder(a: seq<Chat>, b: seq<Chat>, chatId: string)
    ensures Without(a + b, chatId) == Without(a, chatId) + Without(b, chatId)
  {
    if a != [] {
      WithoutKeepsOrder(a[1..], b, chatId);
      assert (a + b)[1..] == a[1..] + b;
    } else {
      assert a + b == b;
    }
  }

  /** Deleting an id that no chat has writes the same list back. */
  lemma {:induction false} WithoutAbsent(chats: seq<Chat>, chatId: string)
    requires forall k | 0 <= k < |chats| :: chats[k].id != chatId
    ensures Without(chats, chatId) == chats
  {
    if chats != [] {
      WithoutAbsent(chats[1..], chatId);
    }
  }

  /** Saving then deleting an id that was absent gives back the original list. */
  lemma SaveThenDeleteAbsent(chats: seq<Chat>, chatId: string, messages: seq<Message>, title: string, now: int)
    requires forall k | 0 <= k < |chats| :: chats[k].id != chatId
    ensures Without(Upsert(chats, chatId, messages, title, now), chatId) == chats
  {
    WithoutKeepsOrder(chats, [Chat(chatId, messages, title, now, now)], chatId);
    WithoutAbsent(chats, chatId);
  }
}
