/**
 * The admin dashboard's decision logic (public/scripts/dashboard.js):
 * parsing comma-separated tag and technology lists, the light/dark theme
 * toggle, notification icons, and how `fetchWithAuth` settles a request.
 * The browser (document, localStorage, window.location, the notification
 * container and the network log) is the class `Page`.
 */
module Dashboard {
  import opened Wrappers
  import opened JsString

  // ---------------------------------------------------------------------
  // Tag and technology lists
  // ---------------------------------------------------------------------

  /** Every piece trimmed, in order. */
  function TrimAll(pieces: seq<string>): (r: seq<string>)
    ensures |r| == |pieces|
    ensures forall i :: 0 <= i < |r| ==> r[i] == Trim(pieces[i])
  {
    Map(Trim, pieces)
  }

  /** `Boolean(t)` for a string: every string but the empty one is truthy. */
  predicate IsNonEmpty(t: string)
  {
    t != ""
  }

  /** `.filter(Boolean)` on strings: drop the empty ones, keep the order. */
  function NonEmpty(pieces: seq<string>): (r: seq<string>)
    ensures forall t :: t in r ==> t != "" && t in pieces
    ensures (forall i :: 0 <= i < |pieces| ==> pieces[i] != "") ==> r == pieces
  {
    FilterMembers(IsNonEmpty, pieces);
    FilterAllKept(IsNonEmpty, pieces);
    Filter(IsNonEmpty, pieces)
  }

  /** `.filter(Boolean)` keeps every non-empty piece as often as it occurs. */
  lemma {:induction false} NonEmptyKeepsCounts(pieces: seq<string>, t: string)
    requires t != ""
    ensures multiset(NonEmpty(pieces))[t] == multiset(pieces)[t]
  {
    FilterKeepsCounts(IsNonEmpty, pieces, t);
  }

  /** Filtering a concatenation filters each part, in order. */
  lemma {:induction false} NonEmptyConcat(a: seq<string>, b: seq<string>)
    ensures NonEmpty(a + b) == NonEmpty(a) + NonEmpty(b)
  {
    FilterConcat(IsNonEmpty, a, b);
  }

  /** Trimming a concatenation trims each part. */
  lemma {:induction false} TrimAllConcat(a: seq<string>, b: seq<string>)
    ensures TrimAll(a + b) == TrimAll(a) + TrimAll(b)
    decreases |a|
  {
    if a == [] {
      assert a + b == b;
    } else {
      assert (a + b)[0] == a[0];
      assert (a + b)[1..] == a[1..] + b;
      TrimAllConcat(a[1..], b);
    }
  }

  /** A list that can come back out of the parser: non-empty, comma-free, trimmed items. */
  predicate IsCleanList(items: seq<string>)
  {
    forall t :: t in items ==> t != "" && ',' !in t && IsTrimmed(t)
  }

  /** `input.split(',').map(x => x.trim()).filter(Boolean)`: the skill form's tags and the project form's technologies. */
  function ParseList(input: string): (items: seq<string>)
    ensures IsCleanList(items)
  {
    var pieces := Split(input, ',');
    TrimAllClean(pieces);
    NonEmpty(TrimAll(pieces))
  }

  /** Trimming comma-free pieces gives comma-free, trimmed pieces. */
  lemma TrimAllClean(pieces: seq<string>)
    requires forall p :: p in pieces ==> ',' !in p
    ensures forall t :: t in TrimAll(pieces) ==> ',' !in t && IsTrimmed(t)
  {
    var trimmed := TrimAll(pieces);
    forall t | t in trimmed ensures ',' !in t {
      var i :| 0 <= i < |trimmed| && trimmed[i] == t;
      assert pieces[i] in pieces;
      TrimInside(pieces[i], ',');
    }
  }

  /**
   * What a user types is parsed piece by piece: the tags before a comma,
   * then those after it, in input order.
   */
  lemma ParseListConcat(a: string, b: string)
    ensures ParseList(a + "," + b) == ParseList(a) + ParseList(b)
  {
    SplitConcat(a, ',', b);
    TrimAllConcat(Split(a, ','), Split(b, ','));
    NonEmptyConcat(TrimAll(Split(a, ',')), TrimAll(Split(b, ',')));
  }

  /** A comma-free piece gives its trimmed text as one tag, or nothing when it is blank. */
  lemma ParseListPiece(p: string)
    requires ',' !in p
    ensures ParseList(p) == if Trim(p) == "" then [] else [Trim(p)]
  {
    SplitWhole(p, ',');
    assert TrimAll([p]) == [Trim(p)];
  }

  /** Trimming only removes characters. */
  lemma TrimInside(s: string, c: char)
    requires c !in s
    ensures c !in Trim(s)
  {
    var a := TrimStart(s);
    NotInSlice(s, c, |s| - |a|, |s|);
    NotInSlice(a, c, 0, |TrimEnd(a)|);
  }

  /** A character missing from a string is missing from every slice of it. */
  lemma NotInSlice(s: string, c: char, i: nat, j: nat)
    requires c !in s && i <= j <= |s|
    ensures c !in s[i..j]
  {
    assert forall k :: 0 <= k < j - i ==> s[i..j][k] == s[i + k];
  }

  /** Each item with one space in front. */
  function Spaced(items: seq<string>): (r: seq<string>)
    ensures |r| == |items|
    ensures forall i :: 0 <= i < |r| ==> r[i] == " " + items[i]
  {
    if items == [] then [] else [" " + items[0]] + Spaced(items[1..])
  }

  /** The pieces `Split` sees in `items.join(', ')` when cutting at commas. */
  function Padded(items: seq<string>): (pieces: seq<string>)
  {
    if |items| <= 1 then items else [items[0]] + Spaced(items[1..])
  }

  /** Dropping the space after a comma and putting it in front of the next item. */
  lemma CommaSpace(a: string, b: string)
    ensures a + "," + (" " + b) == a + ", " + b
  {
  }

  /** A space in front of each item, joined with `,`, is a leading space plus the join with `, `. */
  lemma {:induction false} JoinSpaced(items: seq<string>)
    requires |items| >= 1
    ensures Join(Spaced(items), ",") == " " + Join(items, ", ")
    decreases |items|
  {
    if |items| >= 2 {
      var sp := Spaced(items);
      var rest := Join(items[1..], ", ");
      assert sp[0] == " " + items[0] && sp[1..] == Spaced(items[1..]);
      assert Join(sp[1..], ",") == " " + rest by { JoinSpaced(items[1..]); }
      assert Join(sp, ",") == (" " + items[0]) + "," + (" " + rest);
      CommaSpace(" " + items[0], rest);
      assert Join(items, ", ") == items[0] + ", " + rest;
    }
  }

  /** Joining with `, ` is joining the padded pieces with `,`. */
  lemma JoinPadded(items: seq<string>)
    ensures Join(items, ", ") == Join(Padded(items), ",")
  {
    if |items| >= 2 {
      var p := Padded(items);
      var rest := Join(items[1..], ", ");
      assert p[0] == items[0] && p[1..] == Spaced(items[1..]);
      assert Join(Spaced(items[1..]), ",") == " " + rest by { JoinSpaced(items[1..]); }
      assert Join(p, ",") == items[0] + "," + (" " + rest);
      CommaSpace(items[0], rest);
    }
  }

  /**
   * Editing a skill or project fills the form with `items.join(', ')`;
   * submitting it parses the text again. A clean list survives unchanged,
   * with its order.
   */
  lemma ParseJoinRoundTrip(items: seq<string>)
    requires IsCleanList(items)
    ensures ParseList(Join(items, ", ")) == items
  {
    if items == [] {
      assert Split("", ',') == [""];
    } else {
      JoinPadded(items);
      PaddedCommaFree(items);
      SplitJoin(Padded(items), ',');
      assert forall i :: 0 <= i < |items| ==> items[i] != "" && IsTrimmed(items[i]) by {
        forall i | 0 <= i < |items| ensures items[i] != "" && IsTrimmed(items[i]) {
          assert items[i] in items;
        }
      }
      TrimPaddedAll(items);
    }
  }

  /** The pieces of a joined clean list hold no comma. */
  lemma PaddedCommaFree(items: seq<string>)
    requires IsCleanList(items)
    ensures forall p :: p in Padded(items) ==> ',' !in p
  {
    var pieces := Padded(items);
    forall p | p in pieces ensures ',' !in p {
      var i :| 0 <= i < |pieces| && pieces[i] == p;
      assert items[i] in items;
      if i > 0 { assert p == " " + items[i]; }
    }
  }

  /** Trimming the pieces of a joined list of trimmed items gives the list back. */
  lemma TrimPaddedAll(items: seq<string>)
    requires forall i :: 0 <= i < |items| ==> IsTrimmed(items[i])
    ensures TrimAll(Padded(items)) == items
  {
    if |items| == 1 {
      assert TrimAll(items) == [Trim(items[0])];
    } else if |items| >= 2 {
      var rest := items[1..];
      var head := [items[0]];
      assert items == head + rest;
      assert Trim(items[0]) == items[0];
      assert Padded(items) == head + Spaced(rest);
      TrimAllConcat(head, Spaced(rest));
      assert TrimAll(head) == head;
      forall i | 0 <= i < |rest| ensures IsTrimmed(rest[i]) {
        assert rest[i] == items[i + 1];
      }
      TrimSpaced(rest);
    }
  }

  /** Trimming trimmed items with a space in front gives the items back. */
  lemma TrimSpaced(items: seq<string>)
    requires forall i :: 0 <= i < |items| ==> IsTrimmed(items[i])
    ensures TrimAll(Spaced(items)) == items
  {
    var sp := Spaced(items);
    var t := TrimAll(sp);
    assert |t| == |sp| == |items|;
    forall i | 0 <= i < |items| ensures t[i] == items[i] {
      var x := items[i];
      assert sp[i] == " " + x && t[i] == Trim(sp[i]);
      TrimPadded(x);
    }
    assert t == items;
  }

  /** Parsing the joined parse gives the parse back: saving an unchanged edit form is a no-op. */
  lemma ParseIdempotent(input: string)
    ensures ParseList(Join(ParseList(input), ", ")) == ParseList(input)
  {
    ParseJoinRoundTrip(ParseList(input));
  }

  // ---------------------------------------------------------------------
  // Theme
  // ---------------------------------------------------------------------

  /** `toggleTheme`'s choice from the current `data-theme` attribute (`None` when absent). */
  function NextTheme(current: Option<string>): (t: string)
    ensures t == "dark" || t == "light"
    ensures t == "light" <==> current == Some("dark")
  {
    if current == Some("dark") then "light" else "dark"
  }

  /** Toggling is an involution once the theme is `dark` or `light`; two toggles from `dark` come back to `dark`. */
  lemma ToggleTwice(current: Option<string>)
    ensures NextTheme(Some(NextTheme(Some(NextTheme(current))))) == NextTheme(current)
    ensures NextTheme(Some(NextTheme(Some("dark")))) == "dark"
  {
  }

  /** The toggle button's icon class: a sun offers the way out of the dark theme. */
  function ThemeIcon(theme: string): (cls: string)
    ensures cls == "fas fa-sun" || cls == "fas fa-moon"
    ensures cls == "fas fa-sun" <==> theme == "dark"
  {
    if theme == "dark" then "fas fa-sun" else "fas fa-moon"
  }

  // ---------------------------------------------------------------------
  // Notifications
  // ---------------------------------------------------------------------

  /** The Font Awesome icon `showMessage` puts beside a notification of the given type. */
  function NoticeIcon(kind: string): (icon: string)
    ensures icon == "check-circle" <==> kind == "success"
    ensures icon == "exclamation-circle" <==> kind == "error"
    ensures icon == "exclamation-triangle" <==> kind == "warning"
    ensures icon == "info-circle" <==> kind !in {"success", "error", "warning"}
  {
    if kind == "success" then "check-circle"
    else if kind == "error" then "exclamation-circle"
    else if kind == "warning" then "exclamation-triangle"
    else "info-circle"
  }

  /** One notification in the message container. */
  datatype Notice = Notice(kind: string, icon: string, text: string)

  // ---------------------------------------------------------------------
  // fetchWithAuth
  // ---------------------------------------------------------------------

  /** What `response.json()` yields on a failed response: nothing usable, or an object's `error` and `message` fields. */
  datatype ErrorBody = Unparsable | ErrorData(error: Option<string>, message: Option<string>)

  /** A server response: HTTP status, `content-type` header and, for failures, its error body. */
  datatype Response = Response(status: int, contentType: Option<string>, body: ErrorBody)

  /** How a successful body is read: `response.json()` or `response.text()`. */
  datatype Payload = JsonPayload | TextPayload

  /** A string field is truthy when present and non-empty. */
  predicate Truthy(field: Option<string>)
  {
    field.Some? && field.value != ""
  }

  /** `response.ok`: the status is in the range 200 to 299. */
  predicate IsOk(status: int)
  {
    200 <= status <= 299
  }

  /** `localStorage.getItem('token')` is falsy: absent or empty. */
  predicate NoToken(token: Option<string>)
  {
    !Truthy(token)
  }

  /** `errorData.error || errorData.message || 'Request failed'`, with an unparsable body also giving `Request failed`. */
  function ErrorMessage(body: ErrorBody): (m: string)
    ensures m != ""
    ensures body.ErrorData? && Truthy(body.error) ==> m == body.error.value
    ensures body.ErrorData? && !Truthy(body.error) && Truthy(body.message) ==> m == body.message.value
    ensures body.Unparsable? || (!Truthy(body.error) && !Truthy(body.message)) ==> m == "Request failed"
  {
    match body
    case Unparsable => "Request failed"
    case ErrorData(error, message) =>
      if Truthy(error) then error.value
      else if Truthy(message) then message.value
      else "Request failed"
  }

  /** `contentType.includes('application/json')`. */
  predicate Includes(s: string, part: string)
    ensures Includes(s, part) <==> exists i :: OccursAt(s, part, i)
    decreases |s|
  {
    if |part| <= |s| && s[..|part|] == part then
      assert OccursAt(s, part, 0);
      true
    else if |s| == 0 then
      false
    else
      assert forall i :: OccursAt(s[1..], part, i) ==> OccursAt(s, part, i + 1) by {
        forall i | OccursAt(s[1..], part, i) ensures OccursAt(s, part, i + 1) {
          assert s[1..][i..i + |part|] == s[i + 1..i + 1 + |part|];
        }
      }
      assert forall i :: OccursAt(s, part, i) ==> OccursAt(s[1..], part, i - 1) by {
        forall i | OccursAt(s, part, i) ensures OccursAt(s[1..], part, i - 1) {
          assert i != 0;
          assert s[1..][i - 1..i - 1 + |part|] == s[i..i + |part|];
        }
      }
      Includes(s[1..], part)
  }

  /** `part` occurs in `s` starting at position `i`. */
  predicate OccursAt(s: string, part: string, i: int)
  {
    0 <= i && i + |part| <= |s| && s[i..i + |part|] == part
  }

  /** How a response that was fetched settles: the result, and whether the stored token is dropped. */
  datatype Settled = Settled(result: Result<Payload, string>, dropToken: bool)

  function Settle(response: Response): (s: Settled)
    ensures s.result.Success? <==> IsOk(response.status)
    ensures s.dropToken <==> !IsOk(response.status) && (response.status == 401 || response.status == 403)
    ensures s.dropToken ==> s.result == Failure("Session expired")
    ensures !IsOk(response.status) && !s.dropToken ==> s.result == Failure(ErrorMessage(response.body))
    ensures s.result == Success(JsonPayload) <==>
              IsOk(response.status) && response.contentType.Some? && Includes(response.contentType.value, "application/json")
  {
    if !IsOk(response.status) then
      if response.status == 401 || response.status == 403 then Settled(Failure("Session expired"), true)
      else Settled(Failure(ErrorMessage(response.body)), false)
    else if response.contentType.Some? && Includes(response.contentType.value, "application/json") then
      Settled(Success(JsonPayload), false)
    else
      Settled(Success(TextPayload), false)
  }

  /** The browser state the dashboard reads and writes. */
  class Page {
    /** `data-theme` on the document element. */
    var dataTheme: Option<string>
    /** `localStorage` item `theme`. */
    var storedTheme: Option<string>
    /** Class of the `.theme-toggle i` icon, `None` when the page has no such icon. */
    var toggleIcon: Option<string>
    /** `localStorage` item `token`. */
    var token: Option<string>
    /** `window.location.href`. */
    var location: string
    /** Endpoints requested so far, in order. */
    var requests: seq<string>
    /** Notifications appended to the message container, in order. */
    var notices: seq<Notice>

    constructor(theme: Option<string>, stored: Option<string>, icon: Option<string>, token0: Option<string>, here: string)
      ensures dataTheme == theme && storedTheme == stored && toggleIcon == icon
      ensures token == token0 && location == here && requests == [] && notices == []
    {
      dataTheme, storedTheme, toggleIcon := theme, stored, icon;
      token, location := token0, here;
      requests, notices := [], [];
    }

    /** `utils.showMessage(text, kind)`: one more notification, with the icon for its kind. */
    method ShowMessage(text: string, kind: string)
      modifies this
      ensures notices == old(notices) + [Notice(kind, NoticeIcon(kind), text)]
      ensures dataTheme == old(dataTheme) && storedTheme == old(storedTheme) && toggleIcon == old(toggleIcon)
      ensures token == old(token) && location == old(location) && requests == old(requests)
    {
      notices := notices + [Notice(kind, NoticeIcon(kind), text)];
    }

    /** `themeManager.applyTheme(theme)`. */
    method ApplyTheme(theme: string)
      modifies this
      ensures dataTheme == Some(theme) && storedTheme == Some(theme)
      ensures toggleIcon == if old(toggleIcon).Some? then Some(ThemeIcon(theme)) else None
      ensures token == old(token) && location == old(location)
      ensures requests == old(requests) && notices == old(notices)
    {
      dataTheme := Some(theme);
      storedTheme := Some(theme);
      if toggleIcon.Some? {
        toggleIcon := Some(ThemeIcon(theme));
      }
    }

    /** `themeManager.toggleTheme()`. */
    method ToggleTheme()
      modifies this
      ensures dataTheme == storedTheme == Some(NextTheme(old(dataTheme)))
      ensures old(dataTheme) == Some("dark") ==> dataTheme == Some("light")
      ensures old(dataTheme) != Some("dark") ==> dataTheme == Some("dark")
      ensures toggleIcon == if old(toggleIcon).Some? then Some(ThemeIcon(NextTheme(old(dataTheme)))) else None
      ensures toggleIcon.Some? ==> (toggleIcon.value == "fas fa-sun" <==> dataTheme == Some("dark"))
      ensures token == old(token) && location == old(location)
      ensures requests == old(requests) && notices == old(notices)
    {
      ApplyTheme(NextTheme(dataTheme));
    }

    /**
     * `utils.fetchWithAuth(endpoint)`, given the response the server would
     * send. Without a token nothing is requested. Every failure is reported
     * as an error notification before it is rethrown.
     */
    method FetchWithAuth(endpoint: string, response: Response) returns (r: Result<Payload, string>)
      modifies this
      ensures NoToken(old(token)) ==>
                r == Failure("Not authenticated") && requests == old(requests) &&
                token == old(token) && location == "login.html"
      ensures !NoToken(old(token)) ==>
                requests == old(requests) + [endpoint] && r == Settle(response).result
      ensures !NoToken(old(token)) && Settle(response).dropToken ==>
                token == None && location == "login.html"
      ensures !NoToken(old(token)) && !Settle(response).dropToken ==>
                token == old(token) && location == old(location)
      ensures r.Failure? ==> notices == old(notices) + [Notice("error", "exclamation-circle", r.error)]
      ensures r.Success? ==> notices == old(notices)
      ensures dataTheme == old(dataTheme) && storedTheme == old(storedTheme) && toggleIcon == old(toggleIcon)
    {
      if NoToken(token) {
        location := "login.html";
        r := Failure("Not authenticated");
      } else {
        requests := requests + [endpoint];
        var s := Settle(response);
        if s.dropToken {
          token := None;
          location := "login.html";
        }
        r := s.result;
      }
      if r.Failure? {
        ShowMessage(r.error, "error");
      }
    }
  }
}
