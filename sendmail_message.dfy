/**
 * The header rules of the outbound message composer (`create_email`, `add_inbox_headers`) and
 * `_rfc_transform`, which folds the References header of the rendered message: every tab in
 * that header becomes a newline followed by a tab, so each message id starts a continuation line.
 *
 * The MIME tree, its rendering and address formatting belong to the MIME library; they are
 * parameters here (`render`, `fullSpec`), as are the random public id and the package version.
 */
module SendmailMessage {
  import opened Wrappers

  const REFERENCES_PREFIX := "References: "
  const CRLF := "\r\n"

  // ---------------------------------------------------------------- strings

  predicate OccursAt(s: string, pat: string, i: int) {
    0 <= i && i + |pat| <= |s| && s[i..i + |pat|] == pat
  }

  /** `s.find(pat, from)`: the least index at or after `from` where `pat` occurs, or -1. */
  function Find(s: string, pat: string, from: nat): (i: int)
    ensures i == -1 || (from <= i && OccursAt(s, pat, i))
    ensures forall j :: from <= j && (i == -1 || j < i) ==> !OccursAt(s, pat, j)
    decreases |s| - from
  {
    if from + |pat| > |s| then -1
    else if s[from..from + |pat|] == pat then from
    else Find(s, pat, from + 1)
  }

  function CountTabs(s: string): nat {
    if s == [] then 0 else (if s[0] == '\t' then 1 else 0) + CountTabs(s[1..])
  }

  /**
   * `s.replace('\t', '\n\t')`. Only tabs change: the result is longer by one character per tab,
   * every tab in it directly follows a newline, and a string without tabs is unchanged.
   */
  function ReplaceTabs(s: string): (r: string)
    ensures |r| == |s| + CountTabs(s)
    ensures forall i :: 0 <= i < |r| && r[i] == '\t' ==> 0 < i && r[i - 1] == '\n'
    ensures CountTabs(s) == 0 ==> r == s
  {
    if s == [] then []
    else
      var rest := ReplaceTabs(s[1..]);
      var head := if s[0] == '\t' then "\n\t" else [s[0]];
      assert forall i :: |head| <= i < |head + rest| ==> (head + rest)[i] == rest[i - |head|];
      head + rest
  }

  /** Removes each newline that directly precedes a tab: the inverse of ReplaceTabs. */
  function UnfoldTabs(t: string): string {
    if |t| >= 2 && t[0] == '\n' && t[1] == '\t' then "\t" + UnfoldTabs(t[2..])
    else if t == [] then []
    else [t[0]] + UnfoldTabs(t[1..])
  }

  /** Folding loses nothing: unfolding the folded text gives back the original. */
  lemma {:induction false} UnfoldReplaceTabs(s: string)
    ensures UnfoldTabs(ReplaceTabs(s)) == s
  {
    if s != [] {
      var rest := ReplaceTabs(s[1..]);
      UnfoldReplaceTabs(s[1..]);
      if s[0] == '\t' {
        assert ReplaceTabs(s) == "\n\t" + rest;
        assert ("\n\t" + rest)[2..] == rest;
      } else {
        assert ReplaceTabs(s) == [s[0]] + rest;
        assert rest != [] ==> rest[0] != '\t';
        assert ([s[0]] + rest)[1..] == rest;
      }
    }
  }

  /** `_rfc_transform` on the rendered message `msg`. */
  function RfcTransform(msg: string): string {
    var start := Find(msg, REFERENCES_PREFIX, 0);
    if start == -1 then msg
    else
      var end := Find(msg, CRLF, start + |REFERENCES_PREFIX|);
      // A slice end of -1 stands for the last character.
      var stop := if end == -1 then |msg| - 1 else end;
      msg[..start] + ReplaceTabs(msg[start..stop]) + msg[stop..]
  }

  /** A message without `References: ` is returned unchanged. */
  lemma RfcTransformNoReferences(msg: string)
    requires forall j :: 0 <= j < |msg| ==> !OccursAt(msg, REFERENCES_PREFIX, j)
    ensures RfcTransform(msg) == msg
  {
  }

  /**
   * Where the processed span ends: at the first CRLF after the header name, or, when there is
   * none, one character before the end of the message.
   */
  predicate SpanEnd(msg: string, start: nat, stop: nat) {
    var from := start + |REFERENCES_PREFIX|;
    (from <= stop && OccursAt(msg, CRLF, stop) && forall j :: from <= j < stop ==> !OccursAt(msg, CRLF, j)) ||
    (from <= |msg| && stop == |msg| - 1 && forall j :: from <= j < |msg| ==> !OccursAt(msg, CRLF, j))
  }

  /** Find returns the first occurrence at or after `from`, when there is one. */
  lemma FindFirst(s: string, pat: string, from: nat, i: nat)
    requires from <= i && OccursAt(s, pat, i)
    requires forall j :: from <= j < i ==> !OccursAt(s, pat, j)
    ensures Find(s, pat, from) == i
  {
  }

  /** Find returns -1 when there is no occurrence at or after `from`. */
  lemma FindNone(s: string, pat: string, from: nat)
    requires |pat| > 0
    requires forall j :: from <= j < |s| ==> !OccursAt(s, pat, j)
    ensures Find(s, pat, from) == -1
  {
  }

  /** The span `_rfc_transform` folds ends where SpanEnd says. */
  lemma RfcTransformSpan(msg: string, start: nat, stop: nat)
    requires OccursAt(msg, REFERENCES_PREFIX, start)
    requires forall j :: 0 <= j < start ==> !OccursAt(msg, REFERENCES_PREFIX, j)
    requires SpanEnd(msg, start, stop)
    ensures start <= stop <= |msg|
    ensures RfcTransform(msg) == msg[..start] + ReplaceTabs(msg[start..stop]) + msg[stop..]
  {
    FindFirst(msg, REFERENCES_PREFIX, 0, start);
    var from := start + |REFERENCES_PREFIX|;
    if OccursAt(msg, CRLF, stop) && from <= stop && forall j :: from <= j < stop ==> !OccursAt(msg, CRLF, j) {
      FindFirst(msg, CRLF, from, stop);
    } else {
      FindNone(msg, CRLF, from);
    }
  }

  /**
   * With the first `References: ` at `start` and the span ending at `stop`: the text before the
   * span and the text from `stop` on are unchanged, the span is folded, and unfolding it gives the
   * original span back.
   */
  lemma RfcTransformFolds(msg: string, start: nat, stop: nat)
    requires OccursAt(msg, REFERENCES_PREFIX, start)
    requires forall j :: 0 <= j < start ==> !OccursAt(msg, REFERENCES_PREFIX, j)
    requires SpanEnd(msg, start, stop)
    ensures start <= stop <= |msg|
    ensures var r := RfcTransform(msg); var folded := ReplaceTabs(msg[start..stop]);
      |r| == |msg| + CountTabs(msg[start..stop]) &&
      r[..start] == msg[..start] && r[start + |folded|..] == msg[stop..] &&
      UnfoldTabs(r[start..start + |folded|]) == msg[start..stop]
  {
    RfcTransformSpan(msg, start, stop);
    ConcatSlices(msg[..start], ReplaceTabs(msg[start..stop]), msg[stop..]);
    UnfoldReplaceTabs(msg[start..stop]);
  }

  /** The three parts of `a + b + c` are its slices at `|a|` and `|a| + |b|`. */
  lemma ConcatSlices<T>(a: seq<T>, b: seq<T>, c: seq<T>)
    ensures var r := a + b + c;
      |r| == |a| + |b| + |c| &&
      r[..|a|] == a && r[|a|..|a| + |b|] == b && r[|a| + |b|..] == c
  {
    var r := a + b + c;
    assert r[..|a|] == a;
    assert r[|a|..|a| + |b|] == b;
    assert r[|a| + |b|..] == c;
  }

  // ---------------------------------------------------------------- header values

  /** `sep.join(parts)`. */
  function Join(sep: string, parts: seq<string>): string {
    if parts == [] then ""
    else if |parts| == 1 then parts[0]
    else parts[0] + sep + Join(sep, parts[1..])
  }

  /** `s.split(c)`. */
  function SplitOn(s: string, c: char): (parts: seq<string>)
    ensures |parts| > 0
  {
    if s == [] then [""]
    else
      var rest := SplitOn(s[1..], c);
      if s[0] == c then [""] + rest else [[s[0]] + rest[0]] + rest[1..]
  }

  /** Splitting text that starts with a piece without separators. */
  lemma {:induction false} SplitOnPrefix(a: string, b: string, c: char)
    requires c !in a
    ensures SplitOn(a + b, c) == [a + SplitOn(b, c)[0]] + SplitOn(b, c)[1..]
  {
    if a != [] {
      SplitOnPrefix(a[1..], b, c);
      assert (a + b)[1..] == a[1..] + b;
      assert [a[0]] + (a[1..] + SplitOn(b, c)[0]) == a + SplitOn(b, c)[0];
    } else {
      var x := SplitOn(b, c);
      assert a + b == b && a + x[0] == x[0];
      assert [x[0]] + x[1..] == x;
    }
  }

  /** The tab-joined References value splits back into the message ids, when none contains a tab. */
  lemma {:induction false} ReferencesSplitBack(refs: seq<string>)
    requires |refs| > 0
    requires forall i :: 0 <= i < |refs| ==> '\t' !in refs[i]
    ensures SplitOn(Join("\t", refs), '\t') == refs
  {
    if |refs| == 1 {
      SplitOnPrefix(refs[0], "", '\t');
      assert refs[0] + "" == refs[0];
    } else {
      var rest := Join("\t", refs[1..]);
      ReferencesSplitBack(refs[1..]);
      SplitOnPrefix(refs[0], "\t" + rest, '\t');
      assert ("\t" + rest)[1..] == rest;
      assert refs[0] + "\t" + rest == refs[0] + ("\t" + rest);
      assert refs[0] + "" == refs[0];
    }
  }

  /** The headers the composer sets. */
  datatype Header = Subject | From | To | Cc | Bcc | XInboxId | UserAgent | InReplyTo | References {
    /** The header's name on the wire. */
    function Name(): string {
      match this
      case Subject => "Subject"
      case From => "From"
      case To => "To"
      case Cc => "Cc"
      case Bcc => "Bcc"
      case XInboxId => "X-INBOX-ID"
      case UserAgent => "User-Agent"
      case InReplyTo => "In-Reply-To"
      case References => "References"
    }
  }

  /** A message under construction; only its header mapping is modelled. */
  class Message {
    var headers: map<Header, string>

    constructor ()
      ensures headers == map[]
    {
      headers := map[];
    }
  }

  /** A recipient `(name, address)` pair. */
  datatype Address = Address(name: string, email: string)

  /** A string argument that is neither None nor empty. */
  predicate Truthy(s: Option<string>) {
    s.Some? && s.value != ""
  }

  /** A list argument that is neither None nor empty. */
  predicate NonEmpty<T>(xs: Option<seq<T>>) {
    xs.Some? && |xs.value| > 0
  }

  /** The `full_spec()` of each address, in order. */
  function FullSpecs(addrs: seq<Address>, fullSpec: Address -> string): seq<string> {
    seq(|addrs|, i requires 0 <= i < |addrs| => fullSpec(addrs[i]))
  }

  /** The value `add_inbox_headers` gives `X-INBOX-ID`. */
  function InboxId(inboxUid: Option<string>, publicId: string): (id: string)
    ensures Truthy(inboxUid) ==> id == inboxUid.value
    ensures !Truthy(inboxUid) ==> id == publicId
  {
    if Truthy(inboxUid) then inboxUid.value else publicId
  }

  /** `add_inbox_headers`: set `X-INBOX-ID` (a fresh public id when no uid is given) and `User-Agent`. */
  method AddInboxHeaders(msg: Message, inboxUid: Option<string>, publicId: string, version: string)
    modifies msg
    ensures msg.headers == old(msg.headers)[XInboxId := InboxId(inboxUid, publicId)][UserAgent := "Inbox/" + version]
  {
    msg.headers := msg.headers[XInboxId := InboxId(inboxUid, publicId)];
    msg.headers := msg.headers[UserAgent := "Inbox/" + version];
  }

  /** The TypeError raised by iterating over a None argument. */
  datatype MailError = NotIterable(argument: string)

  /** A composed message: its headers and the folded rendering. */
  datatype Email = Email(headers: map<Header, string>, text: string)

  /** The header names `create_email` sets for the given arguments. */
  function HeaderNames(to: Option<seq<Address>>, cc: Option<seq<Address>>, bcc: Option<seq<Address>>,
                       inReplyTo: Option<string>, references: Option<seq<string>>): set<Header>
  {
    {Subject, From, XInboxId, UserAgent} +
    (if NonEmpty(to) then {To} else {}) + (if NonEmpty(cc) then {Cc} else {}) +
    (if NonEmpty(bcc) then {Bcc} else {}) + (if Truthy(inReplyTo) then {InReplyTo} else {}) +
    (if NonEmpty(references) then {References} else {})
  }

  /**
   * The headers `create_email` sets, in the order it sets them. The Bcc header lists the Cc
   * addresses, as the code does, and a None `cc_addr` with a non-empty `bcc_addr` raises.
   */
  function EmailHeaders(senderName: string, senderEmail: string, inboxUid: Option<string>,
                        to: Option<seq<Address>>, cc: Option<seq<Address>>, bcc: Option<seq<Address>>,
                        subject: Option<string>, inReplyTo: Option<string>, references: Option<seq<string>>,
                        publicId: string, version: string, fullSpec: Address -> string)
    : Result<map<Header, string>, MailError>
  {
    var h0 := map[Subject := if Truthy(subject) then subject.value else "",
                  From := fullSpec(Address(senderName, senderEmail))];
    var h1 := if NonEmpty(to) then h0[To := Join(", ", FullSpecs(to.value, fullSpec))] else h0;
    var h2 := if NonEmpty(cc) then h1[Cc := Join(", ", FullSpecs(cc.value, fullSpec))] else h1;
    if NonEmpty(bcc) && cc.None? then Err(NotIterable("cc_addr"))
    else
      var h3 := if NonEmpty(bcc) then h2[Bcc := Join(", ", FullSpecs(cc.value, fullSpec))] else h2;
      var h4 := h3[XInboxId := InboxId(inboxUid, publicId)][UserAgent := "Inbox/" + version];
      var h5 := if Truthy(inReplyTo) then h4[InReplyTo := inReplyTo.value] else h4;
      Ok(if NonEmpty(references) then h5[References := Join("\t", references.value)] else h5)
  }

  /** The header names are fixed by which arguments are given, and only Bcc without Cc raises. */
  lemma EmailHeaderNames(senderName: string, senderEmail: string, inboxUid: Option<string>,
                         to: Option<seq<Address>>, cc: Option<seq<Address>>, bcc: Option<seq<Address>>,
                         subject: Option<string>, inReplyTo: Option<string>, references: Option<seq<string>>,
                         publicId: string, version: string, fullSpec: Address -> string)
    ensures var r := EmailHeaders(senderName, senderEmail, inboxUid, to, cc, bcc, subject, inReplyTo,
                                  references, publicId, version, fullSpec);
      (r.Err? <==> NonEmpty(bcc) && cc.None?) &&
      (r.Ok? ==> r.value.Keys == HeaderNames(to, cc, bcc, inReplyTo, references))
  {
  }

  /** Each header carries the value the corresponding argument gives it. */
  lemma EmailHeaderValues(senderName: string, senderEmail: string, inboxUid: Option<string>,
                          to: Option<seq<Address>>, cc: Option<seq<Address>>, bcc: Option<seq<Address>>,
                          subject: Option<string>, inReplyTo: Option<string>, references: Option<seq<string>>,
                          publicId: string, version: string, fullSpec: Address -> string)
    ensures var r := EmailHeaders(senderName, senderEmail, inboxUid, to, cc, bcc, subject, inReplyTo,
                                  references, publicId, version, fullSpec);
      r.Ok? ==>
      var h := r.value;
      Subject in h && From in h && XInboxId in h && UserAgent in h &&
      h[Subject] == (if Truthy(subject) then subject.value else "") &&
      h[From] == fullSpec(Address(senderName, senderEmail)) &&
      (NonEmpty(to) ==> To in h && h[To] == Join(", ", FullSpecs(to.value, fullSpec))) &&
      (NonEmpty(cc) ==> Cc in h && h[Cc] == Join(", ", FullSpecs(cc.value, fullSpec))) &&
      (NonEmpty(bcc) ==> cc.Some? && Bcc in h && h[Bcc] == Join(", ", FullSpecs(cc.value, fullSpec))) &&
      h[XInboxId] == InboxId(inboxUid, publicId) &&
      h[UserAgent] == "Inbox/" + version &&
      (Truthy(inReplyTo) ==> InReplyTo in h && h[InReplyTo] == inReplyTo.value) &&
      (NonEmpty(references) ==> References in h && h[References] == Join("\t", references.value))
  {
  }

  /**
   * `create_email`, from the point where the MIME tree exists: set the headers one by one on the
   * message, then render it and fold its References header.
   */
  method CreateEmail(senderName: string, senderEmail: string, inboxUid: Option<string>,
                     to: Option<seq<Address>>, cc: Option<seq<Address>>, bcc: Option<seq<Address>>,
                     subject: Option<string>, inReplyTo: Option<string>, references: Option<seq<string>>,
                     publicId: string, version: string,
                     fullSpec: Address -> string, render: map<Header, string> -> string)
    returns (result: Result<Email, MailError>)
    ensures var r := EmailHeaders(senderName, senderEmail, inboxUid, to, cc, bcc, subject, inReplyTo,
                                  references, publicId, version, fullSpec);
      (result.Err? <==> r.Err?) &&
      (result.Err? ==> result.error == r.error) &&
      (result.Ok? ==> result.value == Email(r.value, RfcTransform(render(r.value))))
  {
    var msg := new Message();
    msg.headers := msg.headers[Subject := if Truthy(subject) then subject.value else ""];
    msg.headers := msg.headers[From := fullSpec(Address(senderName, senderEmail))];
    if NonEmpty(to) {
      msg.headers := msg.headers[To := Join(", ", FullSpecs(to.value, fullSpec))];
    }
    if NonEmpty(cc) {
      msg.headers := msg.headers[Cc := Join(", ", FullSpecs(cc.value, fullSpec))];
    }
    if NonEmpty(bcc) {
      if cc.None? {
        return Err(NotIterable("cc_addr"));
      }
      msg.headers := msg.headers[Bcc := Join(", ", FullSpecs(cc.value, fullSpec))];
    }
    AddInboxHeaders(msg, inboxUid, publicId, version);
    if Truthy(inReplyTo) {
      msg.headers := msg.headers[InReplyTo := inReplyTo.value];
    }
    if NonEmpty(references) {
      msg.headers := msg.headers[References := Join("\t", references.value)];
    }
    result := Ok(Email(msg.headers, RfcTransform(render(msg.headers))));
  }
}
