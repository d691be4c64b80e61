/**
 * Desktop notifications of internal/notification: the Silent guard, the
 * title and body of the two kinds of notification, and the choice of
 * channel by operating system. Nothing is executed: a notification is
 * modelled as the command that would be run (or the line that would be
 * printed), and the command's own failure is an input.
 */
module Notification {
  import opened Wrappers
  import opened Strings

  /** Holds the silence flag; it is only ever read. */
  datatype Notifier = Notifier(silent: bool)

  function NewNotifier(silent: bool): (n: Notifier)
    ensures n.silent == silent
  {
    Notifier(silent)
  }

  /** What a notification does: nothing, run a program with arguments, or print a line. */
  datatype Action = NoAction | Exec(program: string, args: seq<string>) | Console(line: string)

  /** The action taken and the error the caller gets back (None where Go returns nil). */
  datatype Delivery = Delivery(action: Action, err: Option<string>)

  const DownTitle := "Website Down"
  const UpTitle := "Website Up"

  // ---------------------------------------------------------------------------
  // AppleScript for osascript
  // ---------------------------------------------------------------------------

  const ScriptPrefix := "display notification \""
  const ScriptMiddle := " with title \""

  /** Text that needs no AppleScript escape: no `"` and no `\`. */
  predicate Plain(s: string)
  {
    '"' !in s && '\\' !in s
  }

  /** The script as upgak builds it: body, then title, each put between quotes as it is. */
  function MacScriptAsWritten(title: string, body: string): string
  {
    ScriptPrefix + body + "\"" + ScriptMiddle + title + "\""
  }

  /** upgak's script quotes the body first and the title last, each as it is. */
  lemma MacScriptAsWrittenLayout(title: string, body: string)
    ensures HasPrefix(MacScriptAsWritten(title, body), ScriptPrefix + body + "\"")
    ensures HasSuffix(MacScriptAsWritten(title, body), ScriptMiddle + title + "\"")
  {
    var script := MacScriptAsWritten(title, body);
    assert script == (ScriptPrefix + body + "\"") + (ScriptMiddle + title + "\"");
  }

  /**
   * Without escaping, the script does not determine what is shown: two
   * different (title, body) pairs give the very same script, because a
   * double quote in the body closes the string early.
   */
  lemma MacScriptAsWrittenAmbiguous()
    ensures MacScriptAsWritten("c", "a\" with title \"b") == MacScriptAsWritten("b\" with title \"c", "a")
    ensures ("c", "a\" with title \"b") != ("b\" with title \"c", "a")
  {
    assert MacScriptAsWritten("c", "a\" with title \"b")
        == ScriptPrefix + "a\" with title \"b\" with title \"c\""
        == MacScriptAsWritten("b\" with title \"c", "a");
  }

  /** AppleScript string escaping: a backslash before every `"` and `\`. */
  function Escape(s: string): (r: string)
    ensures |r| >= |s|
  {
    if s == [] then []
    else (if s[0] == '"' || s[0] == '\\' then ['\\', s[0]] else [s[0]]) + Escape(s[1..])
  }

  /** Text without quotes or backslashes is left as it is by escaping. */
  lemma {:induction false} EscapePlain(s: string)
    requires Plain(s)
    ensures Escape(s) == s
  {
    if s != [] {
      assert Plain(s[1..]) by {
        assert forall c :: c in s[1..] ==> c in s;
      }
      EscapePlain(s[1..]);
    }
  }

  /** The script that shows exactly `title` and `body`: both escaped before they are quoted. */
  function MacScript(title: string, body: string): string
  {
    ScriptPrefix + Escape(body) + "\"" + ScriptMiddle + Escape(title) + "\""
  }

  /** For text free of quotes and backslashes the escaped script is the one upgak builds. */
  lemma MacScriptAgreesOnPlainText(title: string, body: string)
    ensures Plain(title) && Plain(body) ==> MacScript(title, body) == MacScriptAsWritten(title, body)
  {
    if Plain(title) && Plain(body) {
      EscapePlain(title);
      EscapePlain(body);
    }
  }

  /** Escaping neither adds nor removes a NUL character. */
  lemma {:induction false} EscapeNul(s: string)
    ensures '\0' in Escape(s) <==> '\0' in s
  {
    if s != [] {
      EscapeNul(s[1..]);
      var head := if s[0] == '"' || s[0] == '\\' then ['\\', s[0]] else [s[0]];
      assert Escape(s) == head + Escape(s[1..]);
      assert s == [s[0]] + s[1..];
    }
  }

  /** Both scripts hold a NUL character exactly when the title or the body does. */
  lemma MacScriptsNul(title: string, body: string)
    ensures '\0' in MacScriptAsWritten(title, body) <==> '\0' in title || '\0' in body
    ensures '\0' in MacScript(title, body) <==> '\0' in title || '\0' in body
  {
    EscapeNul(title);
    EscapeNul(body);
    assert '\0' !in ScriptPrefix && '\0' !in ScriptMiddle && '\0' !in "\"";
  }

  /**
   * How AppleScript reads the inside of a string literal: up to the first
   * unescaped `"`, with `\"`, `\\`, `\n`, `\t` and `\r` as escapes. Gives the
   * text and what follows the closing quote.
   */
  function ReadLiteral(s: string): Option<(string, string)>
  {
    if s == [] then None
    else if s[0] == '"' then Some(([], s[1..]))
    else if s[0] == '\\' then
      if |s| < 2 then None
      else
        var c := match s[1]
                 case 'n' => Some('\n')
                 case 't' => Some('\t')
                 case 'r' => Some('\r')
                 case '"' => Some('"')
                 case '\\' => Some('\\')
                 case _ => None;
        match (c, ReadLiteral(s[2..]))
        case (Some(ch), Some((text, rest))) => Some(([ch] + text, rest))
        case _ => None
    else
      match ReadLiteral(s[1..])
      case Some((text, rest)) => Some(([s[0]] + text, rest))
      case None => None
  }

  /** An escaped text followed by a closing quote reads back as the text itself. */
  lemma {:induction false} ReadLiteralEscaped(text: string, rest: string)
    ensures ReadLiteral(Escape(text) + "\"" + rest) == Some((text, rest))
  {
    var s := Escape(text) + "\"" + rest;
    if text == [] {
      assert s == "\"" + rest;
      assert s[1..] == rest;
    } else {
      var tail := Escape(text[1..]) + "\"" + rest;
      ReadLiteralEscaped(text[1..], rest);
      if text[0] == '"' || text[0] == '\\' {
        assert s == ['\\', text[0]] + tail;
        assert s[2..] == tail;
      } else {
        assert s == [text[0]] + tail;
        assert s[1..] == tail;
      }
      assert [text[0]] + text[1..] == text;
    }
  }

  /** Text free of quotes and backslashes followed by a quote reads back as itself. */
  lemma ReadLiteralPlain(text: string, rest: string)
    requires Plain(text)
    ensures ReadLiteral(text + "\"" + rest) == Some((text, rest))
  {
    EscapePlain(text);
    ReadLiteralEscaped(text, rest);
  }

  /** Reads back the (title, body) pair a notification script shows; None if it is not such a script. */
  function ParseMacScript(script: string): Option<(string, string)>
  {
    if !HasPrefix(script, ScriptPrefix) then None
    else
      match ReadLiteral(script[|ScriptPrefix|..])
      case None => None
      case Some((body, rest)) =>
        if !HasPrefix(rest, ScriptMiddle) then None
        else
          match ReadLiteral(rest[|ScriptMiddle|..])
          case None => None
          case Some((title, tail)) => if tail == [] then Some((title, body)) else None
  }

  /** The escaped script shows exactly the title and body it was built from. */
  lemma MacScriptRoundTrip(title: string, body: string)
    ensures ParseMacScript(MacScript(title, body)) == Some((title, body))
  {
    var script := MacScript(title, body);
    var afterTitle := Escape(title) + "\"";
    var rest := ScriptMiddle + afterTitle;
    assert script == ScriptPrefix + (Escape(body) + "\"" + rest);
    assert script[|ScriptPrefix|..] == Escape(body) + "\"" + rest;
    ReadLiteralEscaped(body, rest);
    assert rest[|ScriptMiddle|..] == Escape(title) + "\"" + [];
    ReadLiteralEscaped(title, []);
  }

  /** For text free of quotes and backslashes upgak's own script does show the pair. */
  lemma MacScriptAsWrittenShowsPlain(title: string, body: string)
    requires Plain(title) && Plain(body)
    ensures ParseMacScript(MacScriptAsWritten(title, body)) == Some((title, body))
  {
    MacScriptAgreesOnPlainText(title, body);
    MacScriptRoundTrip(title, body);
  }

  /** A script whose body is closed early by a quote not followed by the title part is rejected. */
  lemma ParseMacScriptEarlyQuote(text: string, rest: string)
    requires Plain(text)
    requires !HasPrefix(rest, ScriptMiddle)
    ensures ParseMacScript(ScriptPrefix + (text + "\"" + rest)) == None
  {
    var script := ScriptPrefix + (text + "\"" + rest);
    assert script[|ScriptPrefix|..] == text + "\"" + rest;
    ReadLiteralPlain(text, rest);
  }

  /**
   * A down notification for a request error that quotes the URL, as Go's
   * HTTP client errors do, is not a well-formed script as upgak builds
   * it: the quote in the message ends the body early.
   */
  lemma MacScriptAsWrittenFailsOnQuotedError()
    ensures var body := DownBody("https://a", "Get \"https://a\": timeout");
            ParseMacScript(MacScriptAsWritten(DownTitle, body)) == None
  {
    var text := "https://a is down: Get ";
    var more := "https://a\": timeout";
    var body := DownBody("https://a", "Get \"https://a\": timeout");
    assert body == text + "\"" + more;
    var rest := more + ("\"" + ScriptMiddle + DownTitle + "\"");
    assert MacScriptAsWritten(DownTitle, body) == ScriptPrefix + (text + "\"" + rest);
    assert rest[0] == 'h' != ScriptMiddle[0];
    ParseMacScriptEarlyQuote(text, rest);
  }

  // ---------------------------------------------------------------------------
  // PowerShell toast for Windows
  // ---------------------------------------------------------------------------

  const ToastHead := "[Windows.UI.Notifications.ToastNotificationManager, Windows.UI.Notifications, ContentType = WindowsRuntime] > $null; $template = [Windows.UI.Notifications.ToastNotificationManager]::GetTemplateContent([Windows.UI.Notifications.ToastTemplateType]::ToastText02); $toastXml = [xml] $template.GetXml(); $toastXml.GetElementsByTagName(\"text\").AppendChild($toastXml.CreateTextNode(\""
  const ToastMiddle := "\")) > $null; $toastXml.GetElementsByTagName(\"text\").AppendChild($toastXml.CreateTextNode(\""
  const ToastTail := "\")) > $null; [Windows.UI.Notifications.ToastNotificationManager]::CreateToastNotifier(\"upgak\").Show($template)"

  /**
   * The PowerShell command for a toast: the title goes into the first text
   * node and the body into the second, each inserted as it is.
   */
  function ToastScript(title: string, body: string): string
  {
    ToastHead + title + ToastMiddle + body + ToastTail
  }

  /** The title goes into the toast's first text node and the body into the second. */
  lemma ToastScriptLayout(title: string, body: string)
    ensures HasPrefix(ToastScript(title, body), ToastHead + title + ToastMiddle)
    ensures HasSuffix(ToastScript(title, body), ToastMiddle + body + ToastTail)
  {
    var script := ToastScript(title, body);
    assert script == (ToastHead + title) + (ToastMiddle + body + ToastTail);
    assert script == (ToastHead + title + ToastMiddle) + (body + ToastTail);
  }

  // ---------------------------------------------------------------------------
  // Dispatch
  // ---------------------------------------------------------------------------

  /** The operating systems with a native channel. */
  predicate HasNativeChannel(goos: string)
  {
    goos == "linux" || goos == "darwin" || goos == "windows"
  }

  /**
   * Sends a notification on the channel of `goos`: notify-send on linux,
   * osascript with the script as upgak builds it on darwin, powershell
   * on windows, and a console line anywhere else. `runErr` is what running
   * the command would return.
   */
  function SendNotification(goos: string, title: string, body: string, runErr: Option<string>): (d: Delivery)
    ensures d.action.Exec? <==> HasNativeChannel(goos)
    ensures d.action.Exec? ==> d.err == runErr
    ensures goos == "linux" ==> d.action == Exec("notify-send", [title, body])
    ensures goos == "darwin" ==> d.action == Exec("osascript", ["-e", MacScriptAsWritten(title, body)])
    ensures goos == "windows" ==> d.action == Exec("powershell", ["-Command", ToastScript(title, body)])
    ensures !HasNativeChannel(goos) ==>
              d == Delivery(Console("NOTIFICATION: " + title + " - " + body + "\n"), None)
  {
    match goos
    case "linux" => Delivery(Exec("notify-send", [title, body]), runErr)
    case "darwin" => Delivery(Exec("osascript", ["-e", MacScriptAsWritten(title, body)]), runErr)
    case "windows" => Delivery(Exec("powershell", ["-Command", ToastScript(title, body)]), runErr)
    case _ => Delivery(Console("NOTIFICATION: " + title + " - " + body + "\n"), None)
  }

  /**
   * The dispatch with the escaping the darwin script needs; every other
   * channel is the one SendNotification uses. On plain text it is
   * upgak's dispatch.
   */
  function SendNotificationEscaped(goos: string, title: string, body: string, runErr: Option<string>): (d: Delivery)
    ensures goos == "darwin" ==> d == Delivery(Exec("osascript", ["-e", MacScript(title, body)]), runErr)
    ensures goos != "darwin" ==> d == SendNotification(goos, title, body, runErr)
    ensures Plain(title) && Plain(body) ==> d == SendNotification(goos, title, body, runErr)
  {
    MacScriptAgreesOnPlainText(title, body);
    if goos == "darwin" then Delivery(Exec("osascript", ["-e", MacScript(title, body)]), runErr)
    else SendNotification(goos, title, body, runErr)
  }

  /**
   * An argument notify-send parses as an option rather than as text: a dash
   * followed by anything. The command passes no `--` before its two texts.
   */
  predicate OptionLike(arg: string)
  {
    |arg| > 1 && arg[0] == '-'
  }

  /**
   * No argument holds a NUL character. Go's exec refuses to start a program
   * with such an argument, and Run returns an error instead.
   */
  predicate NulFree(args: seq<string>)
  {
    forall i :: 0 <= i < |args| ==> '\0' !in args[i]
  }

  /**
   * When notify-send shows its summary and body as given: it refuses an
   * empty summary, parses an option-like argument as an option, and
   * unescapes backslash sequences in the body.
   */
  predicate NotifySendShows(title: string, body: string)
  {
    title != [] && !OptionLike(title) && !OptionLike(body) && '\\' !in body
  }

  /**
   * The (title, body) pair a user is shown for a command run on linux or
   * darwin; None when the pair is not shown as given, either because
   * nothing is shown or because the text shown differs from it.
   */
  function Shown(goos: string, action: Action): Option<(string, string)>
  {
    match action
    case Exec(program, args) =>
      if !NulFree(args) then None
      else if goos == "linux" && program == "notify-send" && |args| == 2 then
        if NotifySendShows(args[0], args[1]) then Some((args[0], args[1])) else None
      else if goos == "darwin" && program == "osascript" && |args| == 2 && args[0] == "-e" then ParseMacScript(args[1])
      else None
    case _ => None
  }

  /**
   * On linux the command shows exactly the title and body it was given when
   * notify-send takes them as they are; on darwin it does so when neither
   * holds a quote or a backslash. On both, a NUL character in either means
   * exec refuses the command and nothing is shown.
   */
  lemma SendNotificationShowsPair(goos: string, title: string, body: string, runErr: Option<string>)
    ensures '\0' !in title && '\0' !in body
            && ((goos == "linux" && NotifySendShows(title, body))
                || (goos == "darwin" && Plain(title) && Plain(body))) ==>
              Shown(goos, SendNotification(goos, title, body, runErr).action) == Some((title, body))
    ensures goos == "linux" && !NotifySendShows(title, body) ==>
              Shown(goos, SendNotification(goos, title, body, runErr).action) == None
    ensures (goos == "linux" || goos == "darwin") && ('\0' in title || '\0' in body) ==>
              Shown(goos, SendNotification(goos, title, body, runErr).action) == None
  {
    MacScriptsNul(title, body);
    if goos == "linux" && '\0' in title {
      assert '\0' in SendNotification(goos, title, body, runErr).action.args[0];
    } else if goos == "linux" && '\0' in body {
      assert '\0' in SendNotification(goos, title, body, runErr).action.args[1];
    } else if goos == "darwin" && ('\0' in title || '\0' in body) {
      assert '\0' in SendNotification(goos, title, body, runErr).action.args[1];
    } else if goos == "darwin" && Plain(title) && Plain(body) {
      MacScriptAsWrittenShowsPlain(title, body);
    }
  }

  /**
   * With the escaping, the darwin command shows exactly the title and body
   * whatever quotes or backslashes they hold; linux is unchanged, so there
   * notify-send must take them as they are. On both, a NUL character in
   * either means nothing is shown.
   */
  lemma SendNotificationEscapedShowsPair(goos: string, title: string, body: string, runErr: Option<string>)
    ensures '\0' !in title && '\0' !in body
            && ((goos == "linux" && NotifySendShows(title, body)) || goos == "darwin") ==>
              Shown(goos, SendNotificationEscaped(goos, title, body, runErr).action) == Some((title, body))
    ensures (goos == "linux" || goos == "darwin") && ('\0' in title || '\0' in body) ==>
              Shown(goos, SendNotificationEscaped(goos, title, body, runErr).action) == None
  {
    MacScriptsNul(title, body);
    if goos == "linux" {
      SendNotificationShowsPair(goos, title, body, runErr);
    } else if goos == "darwin" && ('\0' in title || '\0' in body) {
      assert '\0' in SendNotificationEscaped(goos, title, body, runErr).action.args[1];
    } else if goos == "darwin" {
      MacScriptRoundTrip(title, body);
    }
  }

  /** Distinct operating systems never share a program: each OS has its own channel. */
  lemma ChannelsDistinct(a: string, b: string, title: string, body: string, runErr: Option<string>)
    requires HasNativeChannel(a) && HasNativeChannel(b) && a != b
    ensures SendNotification(a, title, body, runErr).action.program
            != SendNotification(b, title, body, runErr).action.program
  {
  }

  function DownBody(url: string, message: string): string
  {
    url + " is down: " + message
  }

  function UpBody(url: string): string
  {
    url + " is back online"
  }

  /**
   * A URL followed by fixed text: the result looks like an option exactly
   * when the URL starts with a dash, and holds a quote or a backslash only
   * where the URL or the rest does.
   */
  lemma {:induction false} BodyAfterUrl(url: string, rest: string)
    requires |rest| > 0 && rest[0] == ' '
    ensures OptionLike(url + rest) <==> HasPrefix(url, "-")
    ensures Plain(url + rest) <==> Plain(url) && Plain(rest)
    ensures '\0' in url + rest <==> '\0' in url || '\0' in rest
    ensures '\\' in url + rest <==> '\\' in url || '\\' in rest
  {
    var body := url + rest;
    if url == [] {
      assert body == rest;
    } else {
      assert body[0] == url[0];
    }
    assert forall c :: c in body <==> c in url || c in rest;
  }

  /** The fixed parts of the two notifications' text. */
  lemma FixedTextPlain()
    ensures Plain(DownTitle) && Plain(UpTitle) && Plain(" is down: ") && Plain(" is back online")
    ensures !OptionLike(DownTitle) && !OptionLike(UpTitle)
    ensures '\0' !in DownTitle && '\0' !in UpTitle && '\0' !in " is down: " && '\0' !in " is back online"
    ensures DownTitle != [] && UpTitle != []
  {
  }

  /** Nothing is dispatched and nil is returned when silent; otherwise "Website Down" is sent. */
  function SendDownNotification(n: Notifier, goos: string, url: string, message: string, runErr: Option<string>): (d: Delivery)
    ensures n.silent ==> d == Delivery(NoAction, None)
    ensures !n.silent ==> d == SendNotification(goos, DownTitle, DownBody(url, message), runErr)
    ensures !n.silent && '\0' !in url && '\0' !in message
            && ((goos == "linux" && !HasPrefix(url, "-") && '\\' !in url && '\\' !in message)
                || (goos == "darwin" && Plain(url) && Plain(message))) ==>
              Shown(goos, d.action) == Some((DownTitle, url + " is down: " + message))
    ensures !n.silent && goos == "linux" && (HasPrefix(url, "-") || '\\' in url || '\\' in message) ==>
              Shown(goos, d.action) == None
    ensures !n.silent && (goos == "linux" || goos == "darwin") && ('\0' in url || '\0' in message) ==>
              Shown(goos, d.action) == None
  {
    FixedTextPlain();
    BodyAfterUrl(url, " is down: " + message);
    assert DownBody(url, message) == url + (" is down: " + message);
    SendNotificationShowsPair(goos, DownTitle, DownBody(url, message), runErr);
    if n.silent then Delivery(NoAction, None)
    else SendNotification(goos, DownTitle, DownBody(url, message), runErr)
  }

  /**
   * On darwin, as upgak dispatches it, a down notification for a request
   * error that quotes the URL is not shown as given: the quote in the
   * message closes the body early, and AppleScript rejects the rest.
   */
  lemma SendDownNotificationQuotedErrorNotShown(runErr: Option<string>)
    ensures var d := SendDownNotification(Notifier(false), "darwin", "https://a", "Get \"https://a\": timeout", runErr);
            Shown("darwin", d.action) == None
  {
    MacScriptAsWrittenFailsOnQuotedError();
  }

  /** Nothing is dispatched and nil is returned when silent; otherwise "Website Up" is sent. */
  function SendUpNotification(n: Notifier, goos: string, url: string, runErr: Option<string>): (d: Delivery)
    ensures n.silent ==> d == Delivery(NoAction, None)
    ensures !n.silent ==> d == SendNotification(goos, UpTitle, UpBody(url), runErr)
    ensures !n.silent && '\0' !in url
            && ((goos == "linux" && !HasPrefix(url, "-") && '\\' !in url) || (goos == "darwin" && Plain(url))) ==>
              Shown(goos, d.action) == Some((UpTitle, url + " is back online"))
    ensures !n.silent && goos == "linux" && (HasPrefix(url, "-") || '\\' in url) ==> Shown(goos, d.action) == None
    ensures !n.silent && (goos == "linux" || goos == "darwin") && '\0' in url ==> Shown(goos, d.action) == None
  {
    FixedTextPlain();
    BodyAfterUrl(url, " is back online");
    SendNotificationShowsPair(goos, UpTitle, UpBody(url), runErr);
    if n.silent then Delivery(NoAction, None)
    else SendNotification(goos, UpTitle, UpBody(url), runErr)
  }
}
