/**
 * The administrator commands of app/handlers/admin.py: `/admin` answers with
 * the table counts, `/broadcast <text>` sends the text to every stored user
 * and reports how many sends succeeded. The Telegram calls are modelled as
 * their inputs and outcomes: the answers to the sender are returned, the
 * `send_message` calls are returned as (chat id, text) pairs, and whether a
 * send succeeds is a parameter.
 */
module AdminHandlers {
  import opened Wrappers
  import opened Text
  import opened Config
  import opened Repository

  const StatsLead: string := "📊" + " <b>"
  const StatsTitle: string := "Статистика бота"
  const StatsUsers: string := "</b>\n\n" + "👥" + " Пользователей: "
  const StatsPlans: string := "\n" + "📝" + " Создано планов: "

  function Bold(s: string): string {
    "<b>" + s + "</b>"
  }

  /** The `/admin` answer: the title, then the two counts in bold. */
  function StatsText(usersCount: int, plansCount: int): string {
    StatsLead + StatsTitle + StatsUsers + Bold(IntToString(usersCount)) + StatsPlans + Bold(IntToString(plansCount))
  }

  /** `cmd_admin_stats`: silent for anyone but an administrator. */
  method CmdAdminStats(settings: Settings, senderId: int, users: UserRepository, plans: ContentPlanRepository)
    returns (replies: seq<string>)
    ensures !IsAdmin(settings, senderId) ==> replies == []
    ensures IsAdmin(settings, senderId) ==> replies == [StatsText(|users.rows|, |plans.plans|)]
  {
    if !IsAdmin(settings, senderId) {
      return [];
    }
    var usersCount := users.CountAll();
    var plansCount := plans.CountAll();
    replies := [StatsText(usersCount, plansCount)];
  }

  /** The answer carries the title and both counts, each in bold. */
  lemma StatsTextShows(usersCount: int, plansCount: int)
    ensures IsInfix(StatsTitle, StatsText(usersCount, plansCount))
    ensures IsInfix(Bold(IntToString(usersCount)), StatsText(usersCount, plansCount))
    ensures IsInfix(Bold(IntToString(plansCount)), StatsText(usersCount, plansCount))
  {
    SixPieces(StatsLead, StatsTitle, StatsUsers, Bold(IntToString(usersCount)), StatsPlans, Bold(IntToString(plansCount)));
  }

  /** The second, fourth and sixth of six concatenated pieces occur in the whole. */
  lemma SixPieces(a: string, b: string, c: string, d: string, e: string, f: string)
    ensures IsInfix(b, a + b + c + d + e + f)
    ensures IsInfix(d, a + b + c + d + e + f)
    ensures IsInfix(f, a + b + c + d + e + f)
  {
    InfixOfConcat(a, b, c + d + e + f);
    assert a + b + c + d + e + f == a + b + (c + d + e + f);
    InfixOfConcat(a + b + c, d, e + f);
    assert a + b + c + d + e + f == (a + b + c) + d + (e + f);
    InfixOfConcat(a + b + c + d + e, f, "");
    assert a + b + c + d + e + f == (a + b + c + d + e) + f + "";
  }

  // --- str.split(maxsplit=1)

  /** The end of the run of non-whitespace that starts at `i`. */
  function WordEnd(s: string, i: nat): (k: nat)
    requires i <= |s|
    ensures i <= k <= |s|
    ensures forall j | i <= j < k :: !IsSpace(s[j])
    ensures k < |s| ==> IsSpace(s[k])
    decreases |s| - i
  {
    if i < |s| && !IsSpace(s[i]) then WordEnd(s, i + 1) else i
  }

  /**
   * `s.split(maxsplit=1)`: the first whitespace-delimited word and, when
   * anything but whitespace follows, the rest of the string from its next
   * non-whitespace character on (trailing whitespace included).
   */
  function SplitOnce(s: string): (parts: seq<string>)
    ensures |parts| <= 2
  {
    var a := SkipSpaces(s, 0);
    if a == |s| then []
    else
      var b := WordEnd(s, a);
      var c := SkipSpaces(s, b);
      if c == |s| then [s[a..b]] else [s[a..b], s[c..]]
  }

  /**
   * What `split(maxsplit=1)` promises: no part for a blank string; the first
   * part is a non-empty word without whitespace; a second part starts with a
   * non-whitespace character; and the string is its leading whitespace, the
   * word, a non-empty run of whitespace and the second part, or, without a
   * second part, the word followed by whitespace only.
   */
  lemma SplitOnceSpec(s: string)
    ensures SplitOnce(s) == [] <==> AllSpace(s)
    ensures |SplitOnce(s)| >= 1 ==>
      && SplitOnce(s)[0] != ""
      && (forall j | 0 <= j < |SplitOnce(s)[0]| :: !IsSpace(SplitOnce(s)[0][j]))
    ensures |SplitOnce(s)| == 1 ==> exists a, b ::
      (&& 0 <= a <= b <= |s| && s[a..b] == SplitOnce(s)[0]
       && SpaceBetween(s, 0, a) && SpaceBetween(s, b, |s|))
    ensures |SplitOnce(s)| == 2 ==> SplitOnce(s)[1] != "" && !IsSpace(SplitOnce(s)[1][0])
    ensures |SplitOnce(s)| == 2 ==> exists a, b, c ::
      (&& 0 <= a < b < c < |s|
       && SpaceBetween(s, 0, a) && SpaceBetween(s, b, c)
       && s == s[..a] + SplitOnce(s)[0] + s[b..c] + SplitOnce(s)[1])
  {
    var a := SkipSpaces(s, 0);
    if a < |s| {
      var b := WordEnd(s, a);
      var c := SkipSpaces(s, b);
      assert forall j | 0 <= j < b - a :: s[a..b][j] == s[a + j];
      if c < |s| {
        assert s == s[..a] + s[a..b] + s[b..c] + s[c..];
      }
    }
  }

  /** `WordEnd` stops at the first whitespace character, or at the end. */
  lemma {:induction false} WordEndAt(s: string, i: nat, k: nat)
    requires i <= k <= |s|
    requires forall j | i <= j < k :: !IsSpace(s[j])
    requires k < |s| ==> IsSpace(s[k])
    ensures WordEnd(s, i) == k
    decreases k - i
  {
    if i < k {
      WordEndAt(s, i + 1, k);
    }
  }

  /** `"/broadcast"` alone has one part, so the usage hint is sent. */
  lemma SplitBareCommand(s: string)
    requires s == "/broadcast"
    ensures SplitOnce(s) == [s]
  {
    assert SkipSpaces(s, 0) == 0;
    WordEndAt(s, 0, |s|);
    assert SkipSpaces(s, |s|) == |s|;
    assert s[0..|s|] == s;
  }

  /** A command word, one space and a text split into the word and the text. */
  lemma SplitWordAndText(word: string, message: string)
    requires word != "" && forall j | 0 <= j < |word| :: !IsSpace(word[j])
    requires message != "" && !IsSpace(message[0])
    ensures SplitOnce(word + " " + message) == [word, message]
  {
    var s := word + " " + message;
    assert SkipSpaces(s, 0) == 0;
    WordEndAt(s, 0, |word|);
    assert s[|word| + 1] == message[0];
    assert SkipSpaces(s, |word|) == SkipSpaces(s, |word| + 1) == |word| + 1;
    assert s[..|word|] == word && s[|word| + 1..] == message;
  }

  /** `"/broadcast Тестовое сообщение"` splits into the command and the message. */
  lemma SplitCommandAndText(word: string, message: string)
    requires word == "/broadcast" && message == "Тестовое сообщение"
    ensures SplitOnce(word + " " + message) == [word, message]
  {
    assert message[0] == 'Т';
    SplitWordAndText(word, message);
  }

  // --- cmd_broadcast

  const UsageText: string := "⚠" + "\U{FE0F} Использование: <code>/broadcast Текст сообщения</code>"

  /** The notice sent before the sends. */
  function StartText(recipients: int): string {
    "⏳" + " Начинаю рассылку на " + IntToString(recipients) + " пользователей..."
  }

  /** The report sent after the sends. */
  function DoneText(sent: int, errors: int): string {
    "✅" + " Рассылка завершена!\n\n" + "Отправлено: " + IntToString(sent) + "\n" + "Ошибок: " + IntToString(errors)
  }

  /** How many of the chats accept a message. */
  function Delivered(chats: seq<int>, delivers: int -> bool): (n: nat)
    ensures n <= |chats|
  {
    if chats == [] then 0
    else (if delivers(chats[0]) then 1 else 0) + Delivered(chats[1..], delivers)
  }

  /** The chats the sends go to, in the order they are sent. */
  function Recipients(sends: seq<(int, string)>): seq<int> {
    seq(|sends|, i requires 0 <= i < |sends| => sends[i].0)
  }

  /**
   * `cmd_broadcast`: for an administrator whose command has a text, one
   * `send_message` per stored user with that text, in whatever order
   * `get_all_ids` returns the users, a notice before and a report of the
   * successes and failures after; a usage hint when the text is missing;
   * nothing at all for anyone else. `delivers(chat)` says whether
   * `send_message` to that chat returns or raises.
   */
  method CmdBroadcast(settings: Settings, senderId: int, text: string, users: UserRepository,
                      delivers: int -> bool)
    returns (replies: seq<string>, sends: seq<(int, string)>)
    requires users.Valid()
    ensures !IsAdmin(settings, senderId) ==> replies == [] && sends == []
    ensures IsAdmin(settings, senderId) && |SplitOnce(text)| < 2 ==> replies == [UsageText] && sends == []
    ensures IsAdmin(settings, senderId) && |SplitOnce(text)| == 2 ==>
      && |sends| == |users.rows|
      && multiset(Recipients(sends)) == multiset(IdsOf(users.rows))
      && (forall i | 0 <= i < |sends| :: sends[i].1 == SplitOnce(text)[1])
      && replies == [StartText(|users.rows|),
                     DoneText(Delivered(Recipients(sends), delivers),
                              |users.rows| - Delivered(Recipients(sends), delivers))]
  {
    replies := [];
    sends := [];
    if !IsAdmin(settings, senderId) {
      return;
    }
    var parts := SplitOnce(text);
    if |parts| < 2 {
      replies := [UsageText];
      return;
    }
    var textToSend := parts[1];
    var userIds := users.GetAllIds();
    replies := [StartText(|userIds|)];
    var sentCount, errorsCount;
    sends, sentCount, errorsCount := SendEach(userIds, textToSend, delivers);
    assert Recipients(sends) == userIds;
    replies := replies + [DoneText(sentCount, errorsCount)];
  }

  /** The loop of `cmd_broadcast`: one send per chat, counting the ones that return and the ones that raise. */
  method SendEach(chats: seq<int>, message: string, delivers: int -> bool)
    returns (sends: seq<(int, string)>, sentCount: int, errorsCount: int)
    ensures |sends| == |chats| && forall k | 0 <= k < |chats| :: sends[k] == (chats[k], message)
    ensures sentCount == Delivered(chats, delivers) && errorsCount == |chats| - sentCount
  {
    sends := [];
    sentCount := 0;
    errorsCount := 0;
    for i := 0 to |chats|
      invariant |sends| == i
      invariant forall k | 0 <= k < i :: sends[k] == (chats[k], message)
      invariant sentCount == Delivered(chats[..i], delivers)
      invariant sentCount + errorsCount == i
    {
      sends := sends + [(chats[i], message)];
      DeliveredSnoc(chats[..i], chats[i], delivers);
      assert chats[..i + 1] == chats[..i] + [chats[i]];
      if delivers(chats[i]) {
        sentCount := sentCount + 1;
      } else {
        errorsCount := errorsCount + 1;
      }
    }
    assert chats[..|chats|] == chats;
  }

  /** Counting one more chat at the end. */
  lemma {:induction false} DeliveredSnoc(chats: seq<int>, chat: int, delivers: int -> bool)
    ensures Delivered(chats + [chat], delivers) == Delivered(chats, delivers) + (if delivers(chat) then 1 else 0)
    decreases |chats|
  {
    if chats == [] {
      assert [chat][1..] == [];
    } else {
      assert (chats + [chat])[1..] == chats[1..] + [chat];
      DeliveredSnoc(chats[1..], chat, delivers);
    }
  }

  /** The count is of the chats that accept: all of them, or none. */
  lemma {:induction false} DeliveredBounds(chats: seq<int>, delivers: int -> bool)
    ensures (forall k | 0 <= k < |chats| :: delivers(chats[k])) ==> Delivered(chats, delivers) == |chats|
    ensures (forall k | 0 <= k < |chats| :: !delivers(chats[k])) ==> Delivered(chats, delivers) == 0
    decreases |chats|
  {
    if chats != [] {
      DeliveredBounds(chats[1..], delivers);
      assert forall k | 0 <= k < |chats| - 1 :: chats[1..][k] == chats[k + 1];
    }
  }

  /** A value counted once in a list sits at one position only. */
  lemma CountedOnce(s: seq<int>, i: int, j: int)
    requires 0 <= i < j < |s| && multiset(s)[s[i]] <= 1
    ensures s[i] != s[j]
  {
    assert s == s[..j] + [s[j]] + s[j + 1..];
    assert s[..j][i] == s[i];
    assert multiset(s[..j])[s[i]] >= 1;
    assert multiset(s)[s[i]] >= multiset(s[..j])[s[i]] + multiset([s[j]])[s[i]];
  }

  /** Under a UNIQUE `telegram_id` column, each id is stored at most once. */
  lemma {:induction false} UniqueIdsCountOnce(rows: seq<User>, x: int)
    requires UniqueTelegramIds(rows)
    ensures multiset(IdsOf(rows))[x] <= 1
  {
    if rows != [] {
      var rest := rows[1..];
      UniqueIdsCountOnce(rest, x);
      assert IdsOf(rows) == [rows[0].telegramId] + IdsOf(rest);
      if x == rows[0].telegramId {
        forall k | 0 <= k < |rest| ensures IdsOf(rest)[k] != x {
          assert rest[k] == rows[k + 1];
        }
        assert x !in IdsOf(rest);
      }
    }
  }

  /** Any arrangement of a UNIQUE column holds each id once. */
  lemma RecipientsDistinct(rows: seq<User>, chats: seq<int>)
    requires UniqueTelegramIds(rows)
    requires multiset(chats) == multiset(IdsOf(rows))
    ensures forall i, j | 0 <= i < j < |chats| :: chats[i] != chats[j]
  {
    forall i, j | 0 <= i < j < |chats| ensures chats[i] != chats[j] {
      UniqueIdsCountOnce(rows, chats[i]);
      CountedOnce(chats, i, j);
    }
  }

  /** Every stored id is among any rearrangement of the column. */
  lemma EveryIdListed(rows: seq<User>, chats: seq<int>)
    requires multiset(chats) == multiset(IdsOf(rows))
    ensures forall u | u in rows :: u.telegramId in chats
  {
    forall u | u in rows ensures u.telegramId in chats {
      var i :| 0 <= i < |rows| && rows[i] == u;
      assert IdsOf(rows)[i] == u.telegramId;
      assert u.telegramId in multiset(IdsOf(rows));
    }
  }

  /** Only stored ids are among a rearrangement of the column. */
  lemma OnlyIdsListed(rows: seq<User>, chats: seq<int>)
    requires multiset(chats) == multiset(IdsOf(rows))
    ensures forall k | 0 <= k < |chats| :: chats[k] in IdsOf(rows)
    ensures |chats| == |rows|
  {
    forall k | 0 <= k < |chats| ensures chats[k] in IdsOf(rows) {
      assert chats[k] in multiset(chats);
    }
    assert |multiset(chats)| == |multiset(IdsOf(rows))|;
  }

  /**
   * Whatever order the ids come in, every stored user is sent the message,
   * only stored users are, no chat receives it twice, and the successes do
   * not outnumber the users.
   */
  lemma BroadcastReachesEachUserOnce(rows: seq<User>, sends: seq<(int, string)>, message: string, delivers: int -> bool)
    requires UniqueTelegramIds(rows)
    requires multiset(Recipients(sends)) == multiset(IdsOf(rows))
    requires forall i | 0 <= i < |sends| :: sends[i].1 == message
    ensures forall u | u in rows :: (u.telegramId, message) in sends
    ensures forall i | 0 <= i < |sends| :: sends[i].0 in IdsOf(rows)
    ensures forall i, j | 0 <= i < j < |sends| :: sends[i].0 != sends[j].0
    ensures Delivered(Recipients(sends), delivers) <= |rows|
  {
    EveryUserSent(rows, sends, message);
    OnlyStoredSent(rows, sends, delivers);
    NoChatTwice(rows, sends);
  }

  /** The sends go to stored ids only, so no more of them succeed than there are users. */
  lemma OnlyStoredSent(rows: seq<User>, sends: seq<(int, string)>, delivers: int -> bool)
    requires multiset(Recipients(sends)) == multiset(IdsOf(rows))
    ensures forall i | 0 <= i < |sends| :: sends[i].0 in IdsOf(rows)
    ensures Delivered(Recipients(sends), delivers) <= |rows|
  {
    var chats := Recipients(sends);
    OnlyIdsListed(rows, chats);
    forall i | 0 <= i < |sends| ensures sends[i].0 in IdsOf(rows) {
      assert chats[i] == sends[i].0;
    }
  }

  /** Under the UNIQUE column no chat is sent to twice. */
  lemma NoChatTwice(rows: seq<User>, sends: seq<(int, string)>)
    requires UniqueTelegramIds(rows)
    requires multiset(Recipients(sends)) == multiset(IdsOf(rows))
    ensures forall i, j | 0 <= i < j < |sends| :: sends[i].0 != sends[j].0
  {
    var chats := Recipients(sends);
    RecipientsDistinct(rows, chats);
    forall i, j | 0 <= i < j < |sends| ensures sends[i].0 != sends[j].0 {
      assert chats[i] == sends[i].0 && chats[j] == sends[j].0;
    }
  }

  /** Each stored user's id is the chat of some send, and that send carries the message. */
  lemma EveryUserSent(rows: seq<User>, sends: seq<(int, string)>, message: string)
    requires multiset(Recipients(sends)) == multiset(IdsOf(rows))
    requires forall i | 0 <= i < |sends| :: sends[i].1 == message
    ensures forall u | u in rows :: (u.telegramId, message) in sends
  {
    var chats := Recipients(sends);
    EveryIdListed(rows, chats);
    forall u | u in rows ensures (u.telegramId, message) in sends {
      var k :| 0 <= k < |chats| && chats[k] == u.telegramId;
      assert sends[k] == (u.telegramId, message);
    }
  }

  /**
   * The broadcast scenario: two users in a fresh table, an administrator
   * sends `/broadcast` and a message (the test sends `Тестовое сообщение`)
   * and every send succeeds: the message goes to both, and the report
   * counts two sent and no errors.
   */
  method BroadcastToTwoUsers(settings: Settings, message: string)
    returns (replies: seq<string>, sends: seq<(int, string)>)
    requires settings.adminIds == [123456789]
    requires message != "" && !IsSpace(message[0])
    ensures |sends| == 2 && (111, message) in sends && (222, message) in sends
    ensures |replies| == 2 && replies[1] == DoneText(2, 0)
  {
    var users := TwoUsers();
    var command := "/broadcast" + " " + message;
    SplitWordAndText("/broadcast", message);
    replies, sends := CmdBroadcast(settings, 123456789, command, users, _ => true);
    DeliveredBounds(Recipients(sends), _ => true);
    assert users.rows[0].telegramId == 111 && users.rows[1].telegramId == 222;
    BroadcastReachesEachUserOnce(users.rows, sends, message, _ => true);
  }

  /** The table of the broadcast test: users 111 and 222, added in that order. */
  method TwoUsers() returns (users: UserRepository)
    ensures users.Valid() && IdsOf(users.rows) == [111, 222]
  {
    users := new UserRepository();
    var first := users.GetOrCreate(111, Some("user1"), None, 0);
    var second := users.GetOrCreate(222, Some("user2"), None, 0);
    assert users.rows == [first, second];
  }

  /** The bare `/broadcast` from an administrator only gets the usage hint and sends nothing. */
  method BroadcastWithoutText(settings: Settings, command: string, users: UserRepository, delivers: int -> bool)
    returns (replies: seq<string>, sends: seq<(int, string)>)
    requires users.Valid() && 123456789 in settings.adminIds
    requires command == "/broadcast"
    ensures replies == [UsageText] && sends == []
  {
    SplitBareCommand(command);
    replies, sends := CmdBroadcast(settings, 123456789, command, users, delivers);
  }
}
