/**
 * The admin inbox (public/scripts/messages.js): message previews, the
 * unread count and its badge, the rendered message rows, the read/unread
 * filter and marking a row as read. Rows and filter buttons are the DOM
 * elements the inbox updates in place; they are arrays here.
 */
module Inbox {
  import opened Wrappers

  /**
   * A message as the inbox receives it from `/api/messages`; `text` is the
   * record's `message` field and `read` its truthiness.
   */
  datatype Message = Message(
    id: string,
    name: string,
    email: string,
    projectType: Option<string>,
    text: string,
    read: bool)

  /** The length of a preview excerpt. */
  const ExcerptLength: nat := 100

  // ---------------------------------------------------------------------
  // Previews
  // ---------------------------------------------------------------------

  /** `truncateText(text, maxLength)`. */
  function TruncateText(text: string, maxLength: nat): (r: string)
    ensures |text| <= maxLength ==> r == text
    ensures |text| > maxLength ==>
              |r| == maxLength + 3 && r[..maxLength] == text[..maxLength] && r[maxLength..] == "..."
    ensures |r| <= maxLength + 3
  {
    if |text| <= maxLength then text else text[..maxLength] + "..."
  }

  /** Truncating a preview again with the same limit changes nothing. */
  lemma TruncateIdempotent(text: string, maxLength: nat)
    ensures TruncateText(TruncateText(text, maxLength), maxLength) == TruncateText(text, maxLength)
  {
    var once := TruncateText(text, maxLength);
    if |text| > maxLength {
      assert once == once[..maxLength] + once[maxLength..];
    }
  }

  /** The subject line: `projectType || 'General Inquiry'`. */
  function Subject(projectType: Option<string>): (s: string)
    ensures s != ""
    ensures projectType.Some? && projectType.value != "" ==> s == projectType.value
    ensures projectType == None || projectType == Some("") ==> s == "General Inquiry"
  {
    if projectType.Some? && projectType.value != "" then projectType.value else "General Inquiry"
  }

  // ---------------------------------------------------------------------
  // Unread messages
  // ---------------------------------------------------------------------

  /** `messages.filter(m => !m.read)`. */
  function Unread(ms: seq<Message>): (r: seq<Message>)
    ensures |r| <= |ms|
    ensures forall m :: m in r ==> m in ms && !m.read
    ensures forall m :: m in ms && !m.read ==> m in r
  {
    if ms == [] then []
    else if !ms[0].read then [ms[0]] + Unread(ms[1..])
    else Unread(ms[1..])
  }

  /** The read messages, in order: the reference list of what the `read` filter shows. */
  function ReadOnes(ms: seq<Message>): (r: seq<Message>)
    ensures forall m :: m in r ==> m in ms && m.read
    ensures forall m :: m in ms && m.read ==> m in r
  {
    if ms == [] then []
    else if ms[0].read then [ms[0]] + ReadOnes(ms[1..])
    else ReadOnes(ms[1..])
  }

  /** The count handed to the badge after loading: `messages.filter(m => !m.read).length`. */
  function UnreadCount(ms: seq<Message>): (n: nat)
    ensures n <= |ms|
  {
    |Unread(ms)|
  }

  /** Unread and read messages split the list: each message lands in exactly one part. */
  lemma {:induction false} UnreadReadPartition(ms: seq<Message>)
    ensures multiset(Unread(ms)) + multiset(ReadOnes(ms)) == multiset(ms)
    ensures UnreadCount(ms) + |ReadOnes(ms)| == |ms|
  {
    if ms != [] {
      UnreadReadPartition(ms[1..]);
      assert ms == [ms[0]] + ms[1..];
      assert multiset(ms) == multiset{ms[0]} + multiset(ms[1..]);
    }
    assert |multiset(Unread(ms)) + multiset(ReadOnes(ms))| == |multiset(ms)|;
  }

  /** The count is positive exactly when some message is unread. */
  lemma {:induction false} UnreadCountPositive(ms: seq<Message>)
    ensures UnreadCount(ms) > 0 <==> exists i :: 0 <= i < |ms| && !ms[i].read
  {
    if UnreadCount(ms) > 0 {
      var m := Unread(ms)[0];
      assert m in Unread(ms);
      var i :| 0 <= i < |ms| && ms[i] == m;
      assert !ms[i].read;
    }
    if exists i :: 0 <= i < |ms| && !ms[i].read {
      var i :| 0 <= i < |ms| && !ms[i].read;
      assert ms[i] in ms;
      assert ms[i] in Unread(ms);
    }
  }

  // ---------------------------------------------------------------------
  // The message badge
  // ---------------------------------------------------------------------

  /** An element's inline `style.display`: unset, `flex` or `none`. */
  datatype Display = Unstyled | Flex | Hidden

  /** The `.message-badge` element: its text and its display. */
  datatype Badge = Badge(count: int, display: Display)

  /** `updateMessageCount(count)` applied to the badge, if the page has one. */
  function UpdateMessageCount(badge: Option<Badge>, count: int): (r: Option<Badge>)
    ensures r.Some? <==> badge.Some?
    ensures r.Some? ==> r.value.count == count
    ensures r.Some? ==> (r.value.display == Flex <==> count > 0)
    ensures r.Some? ==> (r.value.display == Hidden <==> count <= 0)
  {
    match badge
    case None => None
    case Some(b) => Some(Badge(count, if count > 0 then Flex else Hidden))
  }

  /** After loading, the badge is shown exactly when some message is unread. */
  lemma BadgeShownIffUnread(ms: seq<Message>, b: Badge)
    ensures (UpdateMessageCount(Some(b), UnreadCount(ms)).value.display == Flex) <==>
            (exists i :: 0 <= i < |ms| && !ms[i].read)
  {
    UnreadCountPositive(ms);
  }

  // ---------------------------------------------------------------------
  // Rendered rows
  // ---------------------------------------------------------------------

  /** A `.message-item` element: its id, CSS classes, texts, unread dot and display. */
  datatype Row = Row(
    id: string,
    classes: set<string>,
    sender: string,
    email: string,
    subject: string,
    excerpt: string,
    unreadDot: bool,
    display: Display)

  /** The row `renderMessagesList` produces for one message. */
  function RenderRow(m: Message): (row: Row)
    ensures row.id == m.id && row.sender == m.name && row.email == m.email
    ensures row.classes == (if m.read then {"message-item", "read"} else {"message-item", "unread"})
    ensures row.unreadDot <==> !m.read
    ensures row.subject == Subject(m.projectType)
    ensures row.excerpt == TruncateText(m.text, ExcerptLength) && |row.excerpt| <= ExcerptLength + 3
    ensures row.display == Unstyled
  {
    Row(m.id, {"message-item", if m.read then "read" else "unread"}, m.name, m.email,
        Subject(m.projectType), TruncateText(m.text, ExcerptLength), !m.read, Unstyled)
  }

  /** What the messages list shows: the empty-list placeholder, or one row per message. */
  datatype ListView = NoMessagesFound | Rows(rows: seq<Row>)

  /** `renderMessagesList(messages)`. */
  function RenderMessagesList(ms: seq<Message>): (v: ListView)
    ensures v.NoMessagesFound? <==> ms == []
    ensures v.Rows? ==> |v.rows| == |ms| && forall i :: 0 <= i < |ms| ==> v.rows[i] == RenderRow(ms[i])
  {
    if ms == [] then NoMessagesFound else Rows(seq(|ms|, i requires 0 <= i < |ms| => RenderRow(ms[i])))
  }

  // ---------------------------------------------------------------------
  // Filtering
  // ---------------------------------------------------------------------

  /** A `.filter-btn` element: its `data-filter` and whether it is `active`. */
  datatype FilterButton = FilterButton(filter: string, active: bool)

  /** Whether `filterMessages(filter)` displays a row with these classes. */
  predicate Visible(filter: string, classes: set<string>)
  {
    if filter == "unread" then "unread" in classes
    else if filter == "read" then "read" in classes
    else true
  }

  /** A freshly rendered row is visible under `unread` exactly when unread, under `read` exactly when read, and always otherwise. */
  lemma VisibleRendered(filter: string, m: Message)
    ensures filter == "unread" ==> (Visible(filter, RenderRow(m).classes) <==> !m.read)
    ensures filter == "read" ==> (Visible(filter, RenderRow(m).classes) <==> m.read)
    ensures filter != "unread" && filter != "read" ==> Visible(filter, RenderRow(m).classes)
  {
  }

  /** The number of messages whose rendered row `filter` displays. */
  function ShownCount(filter: string, ms: seq<Message>): (n: nat)
  {
    if ms == [] then 0
    else (if Visible(filter, RenderRow(ms[0]).classes) then 1 else 0) + ShownCount(filter, ms[1..])
  }

  /** Filtering freshly rendered rows by `unread` shows as many rows as the badge counts. */
  lemma {:induction false} ShownUnread(ms: seq<Message>)
    ensures ShownCount("unread", ms) == UnreadCount(ms)
  {
    if ms != [] {
      ShownUnread(ms[1..]);
      VisibleRendered("unread", ms[0]);
    }
  }

  /** Filtering freshly rendered rows by `read` shows the read ones: all rows but the unread ones. */
  lemma {:induction false} ShownRead(ms: seq<Message>)
    ensures ShownCount("read", ms) == |ReadOnes(ms)| == |ms| - UnreadCount(ms)
  {
    if ms != [] {
      ShownRead(ms[1..]);
      VisibleRendered("read", ms[0]);
    }
    UnreadReadPartition(ms);
  }

  /** Any other filter shows every row. */
  lemma {:induction false} ShownAll(ms: seq<Message>, filter: string)
    requires filter != "unread" && filter != "read"
    ensures ShownCount(filter, ms) == |ms|
  {
    if ms != [] {
      ShownAll(ms[1..], filter);
      VisibleRendered(filter, ms[0]);
    }
  }

  /** `filterMessages(filter)`: set every row's display, then mark the matching filter buttons active. */
  method FilterMessages(rows: array<Row>, buttons: array<FilterButton>, filter: string)
    modifies rows, buttons
    ensures forall i :: 0 <= i < rows.Length ==>
              rows[i] == old(rows[i]).(display := if Visible(filter, old(rows[i]).classes) then Flex else Hidden)
    ensures forall i :: 0 <= i < buttons.Length ==>
              buttons[i] == old(buttons[i]).(active := old(buttons[i]).filter == filter)
  {
    var i := 0;
    while i < rows.Length
      invariant 0 <= i <= rows.Length
      invariant forall k :: 0 <= k < i ==>
                  rows[k] == old(rows[k]).(display := if Visible(filter, old(rows[k]).classes) then Flex else Hidden)
      invariant forall k :: i <= k < rows.Length ==> rows[k] == old(rows[k])
      invariant forall k :: 0 <= k < buttons.Length ==> buttons[k] == old(buttons[k])
    {
      rows[i] := rows[i].(display := if Visible(filter, rows[i].classes) then Flex else Hidden);
      i := i + 1;
    }
    var j := 0;
    while j < buttons.Length
      invariant 0 <= j <= buttons.Length
      invariant forall k :: 0 <= k < j ==> buttons[k] == old(buttons[k]).(active := old(buttons[k]).filter == filter)
      invariant forall k :: j <= k < buttons.Length ==> buttons[k] == old(buttons[k])
      invariant forall k :: 0 <= k < rows.Length ==>
                  rows[k] == old(rows[k]).(display := if Visible(filter, old(rows[k]).classes) then Flex else Hidden)
    {
      buttons[j] := buttons[j].(active := buttons[j].filter == filter);
      j := j + 1;
    }
  }

  // ---------------------------------------------------------------------
  // Marking as read
  // ---------------------------------------------------------------------

  /** `document.querySelector('.message-item[data-id="id"]')`: the first row with that id. */
  function FirstRow(rows: seq<Row>, id: string): (k: Option<nat>)
    ensures k.Some? ==> k.value < |rows| && rows[k.value].id == id
    ensures k.Some? ==> forall j :: 0 <= j < k.value ==> rows[j].id != id
    ensures k.None? <==> forall j :: 0 <= j < |rows| ==> rows[j].id != id
  {
    if rows == [] then None
    else if rows[0].id == id then Some(0)
    else match FirstRow(rows[1..], id)
      case None => None
      case Some(k) => Some(k + 1)
  }

  /** A row after `classList.remove('unread')`, `classList.add('read')` and removing its unread dot. */
  function MarkedRead(row: Row): (r: Row)
    ensures Visible("read", r.classes) && !Visible("unread", r.classes)
    ensures r.classes - {"read", "unread"} == row.classes - {"read", "unread"}
    ensures !r.unreadDot
    ensures r == row.(classes := r.classes, unreadDot := false)
  {
    row.(classes := row.classes - {"unread"} + {"read"}, unreadDot := false)
  }

  /** The page update `markAsRead(id)` makes once the server has accepted it. */
  method MarkAsRead(rows: array<Row>, id: string)
    modifies rows
    ensures FirstRow(old(rows[..]), id).None? ==> rows[..] == old(rows[..])
    ensures FirstRow(old(rows[..]), id).Some? ==>
              var k := FirstRow(old(rows[..]), id).value;
              rows[..] == old(rows[..])[k := MarkedRead(old(rows[k]))]
  {
    var k := FirstRow(rows[..], id);
    if k.Some? {
      rows[k.value] := MarkedRead(rows[k.value]);
    }
  }
}
