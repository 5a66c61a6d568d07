/** The dialog store of the Telegram bot: one active dialog per user in
    memory, every dialog saved as a JSON file `{user_id}_{dialog_id}.json` in a
    storage directory, message history trimmed to `max_messages` and at most
    `max_dialogs` files kept per user.

    The storage directory is a map from file name to content; a file is either
    a JSON object holding at least the keys `load_dialog` indexes directly, or
    unreadable (bad JSON or a missing required key). `os.listdir` is an oracle
    `listDir` from the set of names to a listing; clocks are parameters. */
module Dialogs {
  import opened Text
  import opened Sorting

  const DefaultTopic := "Новая тема"

  /** `DialogMessage`. */
  datatype DialogMessage = DialogMessage(role: string, content: string, timestamp: string, tokensUsed: int)

  /** `asdict(dialog)`: the value of all fields of a `Dialog`. */
  datatype DialogState = DialogState(
    userId: int, dialogId: string, createdAt: string, topic: string,
    messages: seq<DialogMessage>, summary: string, isActive: bool)

  /** A message object in a file; `tokens_used` is read with a default. */
  datatype StoredMessage = StoredMessage(role: string, content: string, timestamp: string, tokensUsed: Option<int>)

  /** A dialog object in a file; the keys read with `data.get(...)` may be absent. */
  datatype StoredDialog = StoredDialog(
    userId: int, dialogId: string, createdAt: string, topic: Option<string>,
    messages: Option<seq<StoredMessage>>, summary: Option<string>, isActive: Option<bool>)

  datatype StoredFile = Json(data: StoredDialog) | Unreadable

  // ---------------------------------------------------------------- file names

  function Prefix(userId: int): string {
    IntToString(userId) + "_"
  }

  /** `_get_dialog_filename`, relative to the storage directory. */
  function FileName(userId: int, dialogId: string): string {
    Prefix(userId) + dialogId + ".json"
  }

  lemma {:induction false} NatToStringInjective(a: nat, b: nat)
    requires NatToString(a) == NatToString(b)
    ensures a == b
  {
    if a >= 10 && b >= 10 {
      var sa, sb := NatToString(a), NatToString(b);
      assert sa[..|sa| - 1] == NatToString(a / 10);
      assert sb[..|sb| - 1] == NatToString(b / 10);
      NatToStringInjective(a / 10, b / 10);
      assert DigitChar(a % 10) == sa[|sa| - 1];
    }
  }

  /** The first `_` of a dialog's file name ends the user id, so a name of
      user u never starts with another user's prefix. */
  lemma FileNameOwner(u: int, v: int, id: string)
    requires StartsWith(FileName(u, id), Prefix(v))
    ensures u == v
  {
    var su, sv := IntToString(u), IntToString(v);
    var name := FileName(u, id);
    assert forall i :: 1 <= i < |su| ==> IsDigit(su[i]);
    assert forall i :: 1 <= i < |sv| ==> IsDigit(sv[i]);
    assert name[|su|] == '_' && name[|sv|] == '_';
    assert |su| == |sv|;
    assert su == name[..|su|] == sv;
    assert (u < 0) == (su[0] == '-') && (v < 0) == (sv[0] == '-');
    if u < 0 {
      assert su[1..] == NatToString(-u) && sv[1..] == NatToString(-v);
      NatToStringInjective(-u, -v);
    } else {
      NatToStringInjective(u, v);
    }
  }

  /** The dialog id that `get_user_dialogs` recovers from a listed file name,
      as written: every occurrence of the prefix is removed, then every `.json`. */
  function ListedId(userId: int, name: string): string {
    Replace(Replace(name, Prefix(userId), ""), ".json", "")
  }

  /** A user's dialog saved as `1_20240101_120000.json` (the id format of
      `_generate_dialog_id`) is not found again: the `1_` inside the id is
      removed as well, and `1_2024010120000.json` does not exist. */
  lemma MangledId(id: string)
    requires id == "20240101_120000"
    ensures ListedId(1, FileName(1, id)) == "2024010120000"
  {
    var p, e, pre, rest := "1_", ".json", "2024010", "120000";
    assert Prefix(1) == p;
    assert id == pre + p + rest;
    assert '_' !in pre + "1";
    assert '_' !in rest + e;
    assert 'n' !in pre + rest + ".jso";
    assert pre + rest == "2024010120000";
    DoubledPrefix(p, e, pre, rest);
  }

  /** The shape behind MangledId: an id that holds the prefix loses it. */
  lemma DoubledPrefix(p: string, e: string, pre: string, rest: string)
    requires |p| > 0 && |e| > 0
    requires p[|p| - 1] !in pre + p[..|p| - 1] && p[|p| - 1] !in p[..|p| - 1]
    requires p[|p| - 1] !in rest + e
    requires e[|e| - 1] !in pre + rest + e[..|e| - 1]
    ensures Replace(Replace(p + (pre + p + rest) + e, p, ""), e, "") == pre + rest
  {
    var s, tail, core := p + (pre + p + rest) + e, rest + e, pre + rest;
    assert s == p + (pre + p + tail);
    PrefixRemoved(p, pre, tail);
    ConcatAssoc(pre, rest, e);
    SuffixRemoved(core, e);
  }

  lemma PrefixRemoved(p: string, pre: string, tail: string)
    requires |p| > 0
    requires p[|p| - 1] !in pre + p[..|p| - 1] && p[|p| - 1] !in p[..|p| - 1]
    requires p[|p| - 1] !in tail
    ensures Replace(p + (pre + p + tail), p, "") == pre + tail
  {
    var s1 := pre + p + tail;
    ReplaceAbsent(tail, p, "");
    ReplaceFirst(pre, p, tail, "");
    assert pre + "" + tail == pre + tail;
    ReplaceLeading(p, s1, "");
    assert "" + (pre + tail) == pre + tail;
  }

  lemma ReplaceLeading(pat: string, y: string, rep: string)
    requires |pat| > 0 && pat[|pat| - 1] !in pat[..|pat| - 1]
    ensures Replace(pat + y, pat, rep) == rep + Replace(y, pat, rep)
  {
    assert [] + pat[..|pat| - 1] == pat[..|pat| - 1];
    ReplaceFirst([], pat, y, rep);
    assert [] + pat + y == pat + y;
    assert [] + rep == rep;
  }

  lemma SuffixRemoved(core: string, e: string)
    requires |e| > 0 && e[|e| - 1] !in core + e[..|e| - 1]
    ensures Replace(core + e, e, "") == core
  {
    assert core + e == core + e + [];
    ReplaceFirst(core, e, [], "");
    ReplaceAbsent([], e, "");
  }

  /** Replacing in a string that lacks the last character of the pattern changes nothing. */
  lemma ReplaceAbsent(s: string, pat: string, rep: string)
    requires |pat| > 0 && pat[|pat| - 1] !in s
    ensures Replace(s, pat, rep) == s
  {
    forall j | 0 <= j <= |s| - |pat| ensures !IsAt(s, j, pat) {
      assert s[j + |pat| - 1] in s;
    }
  }

  /** When x followed by all but the last character of the pattern lacks that
      last character, the first occurrence in `x + pat + y` is right after x. */
  lemma ReplaceFirst(x: string, pat: string, y: string, rep: string)
    requires |pat| > 0 && pat[|pat| - 1] !in x + pat[..|pat| - 1]
    ensures Replace(x + pat + y, pat, rep) == x + rep + Replace(y, pat, rep)
  {
    var s := x + pat + y;
    assert IsAt(s, |x|, pat) by { assert s[|x|..|x| + |pat|] == pat; }
    forall j | 0 <= j < |x| ensures !IsAt(s, j, pat) {
      assert s[j + |pat| - 1] == (x + pat[..|pat| - 1])[j + |pat| - 1];
    }
    assert Find(s, pat) == Some(|x|);
    assert s[..|x|] == x && s[|x| + |pat|..] == y;
  }

  /** The intended recovery: the name without its prefix and its `.json`. */
  function ListedIdFixed(userId: int, name: string): string
    requires StartsWith(name, Prefix(userId)) && EndsWith(name, ".json")
    requires |name| >= |Prefix(userId)| + 5
  {
    name[|Prefix(userId)|..|name| - 5]
  }

  /** The fixed recovery inverts `_get_dialog_filename` for every id. */
  lemma ListedIdFixedInverts(userId: int, dialogId: string)
    ensures var name := FileName(userId, dialogId);
            StartsWith(name, Prefix(userId)) && EndsWith(name, ".json")
            && |name| >= |Prefix(userId)| + 5
            && ListedIdFixed(userId, name) == dialogId
  {
  }

  // ---------------------------------------------------------------- save and load

  function StoreMessages(ms: seq<DialogMessage>): (r: seq<StoredMessage>)
    ensures |r| == |ms|
  {
    if ms == [] then []
    else
      var m := Last(ms);
      StoreMessages(ms[..|ms| - 1]) + [StoredMessage(m.role, m.content, m.timestamp, Some(m.tokensUsed))]
  }

  /** What `_save_dialog` writes: every field present. */
  function Store(d: DialogState): StoredDialog {
    StoredDialog(d.userId, d.dialogId, d.createdAt, Some(d.topic), Some(StoreMessages(d.messages)),
                 Some(d.summary), Some(d.isActive))
  }

  function LoadMessage(m: StoredMessage): DialogMessage {
    DialogMessage(m.role, m.content, m.timestamp, GetOr(m.tokensUsed, 0))
  }

  function LoadMessages(ms: seq<StoredMessage>): (r: seq<DialogMessage>)
    ensures |r| == |ms|
  {
    if ms == [] then [] else LoadMessages(ms[..|ms| - 1]) + [LoadMessage(Last(ms))]
  }

  /** The dialog `load_dialog` builds from a readable file. */
  function Load(data: StoredDialog): DialogState {
    DialogState(data.userId, data.dialogId, data.createdAt, GetOr(data.topic, DefaultTopic),
                LoadMessages(GetOr(data.messages, [])), GetOr(data.summary, ""), GetOr(data.isActive, false))
  }

  /** `load_dialog` given the file's name: None when it is missing or unreadable. */
  function LoadFile(files: map<string, StoredFile>, name: string): Option<DialogState> {
    if name in files && files[name].Json? then Some(Load(files[name].data)) else None
  }

  lemma {:induction false} LoadStoredMessages(ms: seq<DialogMessage>)
    ensures LoadMessages(StoreMessages(ms)) == ms
  {
    if ms != [] {
      var init := ms[..|ms| - 1];
      LoadStoredMessages(init);
      var st := StoreMessages(ms);
      assert st[..|st| - 1] == StoreMessages(init);
      assert ms == init + [Last(ms)];
    }
  }

  /** Loading what was saved gives the saved dialog back. */
  lemma LoadStored(d: DialogState)
    ensures Load(Store(d)) == d
  {
    LoadStoredMessages(d.messages);
  }

  /** The defaults of `load_dialog` for absent keys: topic "Новая тема",
      no summary, not active, no messages, and 0 tokens for a message. */
  lemma LoadDefaults(data: StoredDialog, m: StoredMessage)
    requires data.topic.None? && data.summary.None? && data.isActive.None? && data.messages.None?
    requires m.tokensUsed.None?
    ensures var d := Load(data);
            d.topic == DefaultTopic && d.summary == "" && !d.isActive && d.messages == []
            && d.userId == data.userId && d.dialogId == data.dialogId && d.createdAt == data.createdAt
    ensures LoadMessage(m).tokensUsed == 0 && LoadMessage(m).role == m.role && LoadMessage(m).content == m.content
  {
  }

  // ---------------------------------------------------------------- listing, sorting, cleanup

  /** The dialogs `get_user_dialogs` finds, in listing order: names starting
      with the user's prefix whose recovered id (as written, or `fixed`) loads. */
  function Listed(userId: int, files: map<string, StoredFile>, names: seq<string>, fixed: bool): seq<DialogState> {
    if names == [] then []
    else
      var found := ListedOne(userId, files, Last(names), fixed);
      Listed(userId, files, names[..|names| - 1], fixed) + (if found.Some? then [found.value] else [])
  }

  /** The dialog a listed name yields: none unless it has the user's prefix,
      else the file named by the id recovered from it (as written, or the
      intended way when `fixed`). */
  function ListedOne(userId: int, files: map<string, StoredFile>, name: string, fixed: bool): Option<DialogState> {
    if !StartsWith(name, Prefix(userId)) then None
    else if !fixed then LoadFile(files, FileName(userId, ListedId(userId, name)))
    else if EndsWith(name, ".json") && |name| >= |Prefix(userId)| + 5
    then LoadFile(files, FileName(userId, ListedIdFixed(userId, name)))
    else None
  }

  /** One more listed name adds at most its own dialog at the end. */
  lemma ListedSnoc(userId: int, files: map<string, StoredFile>, names: seq<string>, i: nat, fixed: bool)
    requires i < |names|
    ensures var found := ListedOne(userId, files, names[i], fixed);
            Listed(userId, files, names[..i + 1], fixed)
            == Listed(userId, files, names[..i], fixed) + (if found.Some? then [found.value] else [])
  {
    PrefixSnoc(names, i);
    assert names[..i + 1][..i] == names[..i];
  }

  /** `key=lambda x: x.created_at, reverse=True`. */
  predicate NewerFirst(a: DialogState, b: DialogState) {
    StrLe(b.createdAt, a.createdAt)
  }

  lemma NewerFirstPreorder()
    ensures TotalPreorder(NewerFirst)
  {
    forall x, y ensures NewerFirst(x, y) || NewerFirst(y, x) {
      StrLeTotal(x.createdAt, y.createdAt);
    }
    forall x, y, z | NewerFirst(x, y) && NewerFirst(y, z) ensures NewerFirst(x, z) {
      StrLeTrans(z.createdAt, y.createdAt, x.createdAt);
    }
  }

  /** `get_user_dialogs`: the found dialogs, newest first. */
  function UserDialogs(userId: int, files: map<string, StoredFile>, listDir: set<string> -> seq<string>): seq<DialogState> {
    SortBy(Listed(userId, files, listDir(files.Keys), false), NewerFirst)
  }

  /** The dialogs returned are the dialogs found, each as often as found,
      ordered by `created_at` from the newest. */
  lemma UserDialogsFacts(userId: int, files: map<string, StoredFile>, listDir: set<string> -> seq<string>)
    ensures var ds := UserDialogs(userId, files, listDir);
            multiset(ds) == multiset(Listed(userId, files, listDir(files.Keys), false))
            && forall i, j :: 0 <= i < j < |ds| ==> StrLe(ds[j].createdAt, ds[i].createdAt)
  {
    NewerFirstPreorder();
    SortBySorted(Listed(userId, files, listDir(files.Keys), false), NewerFirst);
  }

  /** The file names of dialogs to delete. */
  function DeletedNames(userId: int, ds: seq<DialogState>): set<string> {
    if ds == [] then {} else DeletedNames(userId, ds[..|ds| - 1]) + {FileName(userId, Last(ds).dialogId)}
  }

  lemma {:induction false} DeletedNamesOwned(userId: int, ds: seq<DialogState>)
    ensures forall n :: n in DeletedNames(userId, ds) ==>
              StartsWith(n, Prefix(userId)) && exists d :: d in ds && n == FileName(userId, d.dialogId)
  {
    if ds != [] {
      DeletedNamesOwned(userId, ds[..|ds| - 1]);
      assert forall d :: d in ds[..|ds| - 1] ==> d in ds;
    }
  }

  /** `_cleanup_old_dialogs`: when more than max dialogs are found, the files
      of all but the first max of them (Python's `dialogs[max:]`) are removed. */
  function Cleaned(userId: int, files: map<string, StoredFile>, maxDialogs: int, listDir: set<string> -> seq<string>): map<string, StoredFile> {
    var ds := UserDialogs(userId, files, listDir);
    if |ds| > maxDialogs then files - DeletedNames(userId, PyDrop(ds, maxDialogs)) else files
  }

  /** Cleanup only removes files, only files of this user, and with
      `max_dialogs >= 0` it removes the files of the oldest dialogs: every
      dialog it deletes is no newer than every dialog it keeps. */
  lemma CleanedFacts(userId: int, files: map<string, StoredFile>, maxDialogs: int, listDir: set<string> -> seq<string>)
    ensures var c := Cleaned(userId, files, maxDialogs, listDir);
            c.Keys <= files.Keys
            && (forall n :: n in c ==> c[n] == files[n])
            && (forall n :: n in files && n !in c ==> StartsWith(n, Prefix(userId)))
    ensures var ds := UserDialogs(userId, files, listDir);
            maxDialogs >= 0 && |ds| > maxDialogs ==>
              forall i, j :: 0 <= i < maxDialogs <= j < |ds| ==> StrLe(ds[j].createdAt, ds[i].createdAt)
  {
    var ds := UserDialogs(userId, files, listDir);
    UserDialogsFacts(userId, files, listDir);
    DeletedNamesOwned(userId, PyDrop(ds, maxDialogs));
  }

  /** A saved dialog of this user whose file is listed is found when the
      id is recovered the intended way. */
  lemma {:induction false} SavedDialogListed(userId: int, files: map<string, StoredFile>, names: seq<string>, d: DialogState)
    requires FileName(userId, d.dialogId) in names
    requires FileName(userId, d.dialogId) in files && files[FileName(userId, d.dialogId)] == Json(Store(d))
    ensures d in Listed(userId, files, names, true)
  {
    var name := FileName(userId, d.dialogId);
    if Last(names) == name {
      ListedIdFixedInverts(userId, d.dialogId);
      LoadStored(d);
    } else {
      assert name in names[..|names| - 1] by {
        var k :| 0 <= k < |names| && names[k] == name;
        assert k < |names| - 1;
        assert names[..|names| - 1][k] == name;
      }
      SavedDialogListed(userId, files, names[..|names| - 1], d);
    }
  }

  /** As written it is not: user 1's dialog `20240101_120000` is saved and
      listed, yet `get_user_dialogs` returns nothing. */
  lemma SavedDialogMissed(d: DialogState)
    requires d.userId == 1 && d.dialogId == "20240101_120000"
    ensures var files := map[FileName(1, d.dialogId) := Json(Store(d))];
            Listed(1, files, [FileName(1, d.dialogId)], false) == []
            && Listed(1, files, [FileName(1, d.dialogId)], true) == [d]
  {
    var files := map[FileName(1, d.dialogId) := Json(Store(d))];
    MangledId(d.dialogId);
    assert FileName(1, "2024010120000") != FileName(1, d.dialogId) by {
      assert |FileName(1, "2024010120000")| < |FileName(1, d.dialogId)|;
    }
    ListedIdFixedInverts(1, d.dialogId);
    LoadStored(d);
    assert [FileName(1, d.dialogId)][..0] == [];
  }

  // ---------------------------------------------------------------- message history

  /** The trimming in `add_message` as written: `messages[-max:]` when longer
      than max. */
  function Trimmed(ms: seq<DialogMessage>, maxMessages: int): seq<DialogMessage> {
    if |ms| > maxMessages then PyDrop(ms, -maxMessages) else ms
  }

  /** With a positive limit the newest `max` messages are kept. */
  lemma TrimmedKeepsNewest(ms: seq<DialogMessage>, maxMessages: int)
    requires maxMessages > 0
    ensures Trimmed(ms, maxMessages) == KeepLast(ms, maxMessages)
    ensures |Trimmed(ms, maxMessages)| <= maxMessages
  {
  }

  /** With `max_messages == 0`, `messages[-0:]` is the whole list: the
      history is never trimmed. */
  lemma TrimmedZeroKeepsAll(ms: seq<DialogMessage>)
    ensures Trimmed(ms, 0) == ms
    ensures |ms| > 0 ==> |Trimmed(ms, 0)| > 0
  {
  }

  /** The intended trimming: the newest `max` messages, none for a limit of 0
      or less. */
  function TrimmedFixed(ms: seq<DialogMessage>, maxMessages: int): (r: seq<DialogMessage>)
    ensures maxMessages >= 0 ==> |r| <= maxMessages
    ensures maxMessages < 0 ==> r == []
    ensures |r| == if |ms| > maxMessages && maxMessages >= 0 then maxMessages else if maxMessages < 0 then 0 else |ms|
    ensures r == ms[|ms| - |r|..]
  {
    KeepLast(ms, if maxMessages > 0 then maxMessages else 0)
  }

  lemma TrimmedFixedAgrees(ms: seq<DialogMessage>, maxMessages: int)
    requires maxMessages > 0
    ensures TrimmedFixed(ms, maxMessages) == Trimmed(ms, maxMessages)
  {
  }

  // ---------------------------------------------------------------- objects

  /** `Dialog`; the fields the code never reassigns are constants. */
  class Dialog {
    const userId: int
    const dialogId: string
    const createdAt: string
    const topic: string
    var messages: seq<DialogMessage>
    var summary: string
    const isActive: bool

    /** The dataclass constructor with `__post_init__`: absent messages become an empty list. */
    constructor (userId: int, dialogId: string, createdAt: string, topic: string,
                 messages: Option<seq<DialogMessage>>, summary: string, isActive: bool)
      ensures State() == DialogState(userId, dialogId, createdAt, topic, GetOr(messages, []), summary, isActive)
    {
      this.userId := userId;
      this.dialogId := dialogId;
      this.createdAt := createdAt;
      this.topic := topic;
      this.messages := if messages.None? then [] else messages.value;
      this.summary := summary;
      this.isActive := isActive;
    }

    function State(): DialogState
      reads this
    {
      DialogState(userId, dialogId, createdAt, topic, messages, summary, isActive)
    }
  }

  class DialogManager {
    const storagePath: string
    const maxMessages: int
    const maxDialogs: int
    const listDir: set<string> -> seq<string>
    var activeDialogs: map<int, Dialog>
    /** The files of the storage directory. */
    var files: map<string, StoredFile>

    /** Every active dialog is filed under its own user. */
    predicate Valid()
      reads this, activeDialogs.Values
    {
      forall u :: u in activeDialogs ==> activeDialogs[u].userId == u
    }

    /** `__init__`; `existing` is what the storage directory already holds. */
    constructor (storagePath: string, maxMessages: int, maxDialogs: int,
                 listDir: set<string> -> seq<string>, existing: map<string, StoredFile>)
      ensures this.storagePath == storagePath && this.maxMessages == maxMessages
      ensures this.maxDialogs == maxDialogs && this.listDir == listDir
      ensures activeDialogs == map[] && files == existing
      ensures Valid()
    {
      this.storagePath := storagePath;
      this.maxMessages := maxMessages;
      this.maxDialogs := maxDialogs;
      this.listDir := listDir;
      activeDialogs := map[];
      files := existing;
    }

    /** `get_active_dialog`. */
    function ActiveDialog(userId: int): (r: Option<Dialog>)
      reads this
      ensures r.Some? <==> userId in activeDialogs
      ensures r.Some? ==> r.value == activeDialogs[userId]
    {
      if userId in activeDialogs then Some(activeDialogs[userId]) else None
    }

    /** `_save_dialog`. */
    method SaveDialog(d: Dialog)
      modifies this
      ensures files == old(files)[FileName(d.userId, d.dialogId) := Json(Store(d.State()))]
      ensures activeDialogs == old(activeDialogs)
    {
      files := files[FileName(d.userId, d.dialogId) := Json(Store(d.State()))];
    }

    /** `load_dialog`. */
    method LoadDialog(userId: int, dialogId: string) returns (d: Option<DialogState>)
      ensures d == LoadFile(files, FileName(userId, dialogId))
    {
      var name := FileName(userId, dialogId);
      if name !in files || files[name].Unreadable? {
        return None;
      }
      var data := files[name].data;
      var stored := GetOr(data.messages, []);
      var messages: seq<DialogMessage> := [];
      var i := 0;
      while i < |stored|
        invariant 0 <= i <= |stored|
        invariant messages == LoadMessages(stored[..i])
      {
        messages := messages + [LoadMessage(stored[i])];
        assert stored[..i + 1][..i] == stored[..i];
        i := i + 1;
      }
      assert stored[..|stored|] == stored;
      d := Some(DialogState(data.userId, data.dialogId, data.createdAt, GetOr(data.topic, DefaultTopic),
                            messages, GetOr(data.summary, ""), GetOr(data.isActive, false)));
    }

    /** `get_user_dialogs`. */
    method GetUserDialogs(userId: int) returns (dialogs: seq<DialogState>)
      ensures dialogs == UserDialogs(userId, files, listDir)
    {
      var names := listDir(files.Keys);
      var found: seq<DialogState> := [];
      var i := 0;
      while i < |names|
        invariant 0 <= i <= |names|
        invariant found == Listed(userId, files, names[..i], false)
      {
        var name := names[i];
        ListedSnoc(userId, files, names, i, false);
        if StartsWith(name, Prefix(userId)) {
          var dialogId := Replace(Replace(name, Prefix(userId), ""), ".json", "");
          var d := LoadDialog(userId, dialogId);
          if d.Some? {
            found := found + [d.value];
          }
        }
        i := i + 1;
      }
      assert names[..|names|] == names;
      dialogs := SortBy(found, NewerFirst);
    }

    /** The removal loop of `_cleanup_old_dialogs`: a file is removed when it exists. */
    method RemoveDialogFiles(userId: int, doomed: seq<DialogState>)
      modifies this
      ensures files == old(files) - DeletedNames(userId, doomed)
      ensures activeDialogs == old(activeDialogs)
    {
      var i := 0;
      while i < |doomed|
        invariant 0 <= i <= |doomed|
        invariant files == old(files) - DeletedNames(userId, doomed[..i])
        invariant activeDialogs == old(activeDialogs)
      {
        var name := FileName(userId, doomed[i].dialogId);
        assert doomed[..i + 1][..i] == doomed[..i];
        if name in files {
          files := files - {name};
        }
        i := i + 1;
      }
      assert doomed[..|doomed|] == doomed;
    }

    /** `_cleanup_old_dialogs`. */
    method CleanupOldDialogs(userId: int)
      modifies this
      ensures files == Cleaned(userId, old(files), maxDialogs, listDir)
      ensures activeDialogs == old(activeDialogs)
    {
      var dialogs := GetUserDialogs(userId);
      if |dialogs| > maxDialogs {
        RemoveDialogFiles(userId, PyDrop(dialogs, maxDialogs));
      }
    }

    /** `start_new_dialog`; the generated id and the creation time are given. */
    method StartNewDialog(userId: int, topic: string, dialogId: string, now: string) returns (d: Dialog)
      requires Valid()
      modifies this
      ensures fresh(d)
      ensures d.State() == DialogState(userId, dialogId, now, topic, [], "", true)
      ensures activeDialogs == old(activeDialogs)[userId := d]
      ensures files == Cleaned(userId, old(files)[FileName(userId, dialogId) := Json(Store(d.State()))], maxDialogs, listDir)
      ensures Valid()
    {
      d := new Dialog(userId, dialogId, now, topic, None, "", true);
      activeDialogs := activeDialogs[userId := d];
      SaveDialog(d);
      CleanupOldDialogs(userId);
    }

    /** `add_message`; the timestamp, and the id and time of a dialog it may
        have to start, are given. */
    method AddMessage(userId: int, role: string, content: string, tokensUsed: int,
                      timestamp: string, newDialogId: string, now: string) returns (ok: bool)
      requires Valid()
      modifies this, if userId in activeDialogs then {activeDialogs[userId]} else {}
      ensures ok && Valid() && userId in activeDialogs
      ensures var d := activeDialogs[userId];
              var msg := DialogMessage(role, content, timestamp, tokensUsed);
              if old(userId in activeDialogs) then
                activeDialogs == old(activeDialogs) && d == old(activeDialogs[userId])
                && d.messages == Trimmed(old(activeDialogs[userId].messages) + [msg], maxMessages)
                && d.summary == old(activeDialogs[userId].summary)
                && files == old(files)[FileName(userId, d.dialogId) := Json(Store(d.State()))]
              else
                fresh(d) && activeDialogs == old(activeDialogs)[userId := d]
                && d.State() == DialogState(userId, newDialogId, now, DefaultTopic, Trimmed([msg], maxMessages), "", true)
                && files == Cleaned(userId, old(files)[FileName(userId, newDialogId) := Json(Store(d.State().(messages := [])))],
                                    maxDialogs, listDir)[FileName(userId, newDialogId) := Json(Store(d.State()))]
    {
      var dialog: Dialog;
      var active := ActiveDialog(userId);
      if active.None? {
        dialog := StartNewDialog(userId, DefaultTopic, newDialogId, now);
      } else {
        dialog := active.value;
      }
      var message := DialogMessage(role, content, timestamp, tokensUsed);
      AppendTrimmed(dialog, message);
      SaveDialog(dialog);
      ok := true;
    }

    /** The `append` and the trimming to the newest `max_messages` of `add_message`. */
    method AppendTrimmed(dialog: Dialog, message: DialogMessage)
      modifies dialog
      ensures dialog.messages == Trimmed(old(dialog.messages) + [message], maxMessages)
      ensures dialog.summary == old(dialog.summary)
    {
      dialog.messages := dialog.messages + [message];
      if |dialog.messages| > maxMessages {
        dialog.messages := PyDrop(dialog.messages, -maxMessages);
      }
    }

    /** `update_summary`. */
    method UpdateSummary(userId: int, summary: string) returns (ok: bool)
      modifies this, if userId in activeDialogs then {activeDialogs[userId]} else {}
      ensures ok == old(userId in activeDialogs)
      ensures activeDialogs == old(activeDialogs)
      ensures !ok ==> files == old(files)
      ensures ok ==> var d := activeDialogs[userId];
                     d.summary == summary && d.messages == old(d.messages)
                     && files == old(files)[FileName(d.userId, d.dialogId) := Json(Store(d.State()))]
    {
      var active := ActiveDialog(userId);
      if active.None? {
        return false;
      }
      var dialog := active.value;
      dialog.summary := summary;
      SaveDialog(dialog);
      ok := true;
    }
  }
}
