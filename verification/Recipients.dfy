/** The recipients of a report: requested targets brought to one form, and added to those the
    report already has. */
module Recipients {
  import opened Wrappers
  import opened AsciiText

  datatype Target = Target(channel: string, destination: string, isActive: bool)

  /** A stored recipient. */
  datatype Recipient = Recipient(channel: string, destination: string, email: Option<string>, isActive: bool)

  const EMAIL := "email"

  /** Two targets with one key are the same place. */
  function KeyOf(t: Target): (string, string) { (t.channel, Lower(t.destination)) }

  function RowKey(r: Recipient): (string, string) {
    (Lower(Strip(r.channel)), Lower(Strip(if r.destination != "" then r.destination else r.email.GetOr(""))))
  }

  function FromEmail(email: string): Target { Target(EMAIL, Lower(Strip(email)), true) }

  function FromTarget(t: Target): Target {
    var channel := Lower(Strip(t.channel));
    Target(if channel == "" then EMAIL else channel, Strip(t.destination), t.isActive)
  }

  /** What a request asks for, in order; blank destinations are still in it. */
  function Requested(emails: seq<string>, targets: seq<Target>): seq<Target> {
    seq(|emails|, i requires 0 <= i < |emails| => FromEmail(emails[i]))
      + seq(|targets|, i requires 0 <= i < |targets| => FromTarget(targets[i]))
  }

  function TargetKeys(ts: seq<Target>): set<(string, string)> { set t | t in ts :: KeyOf(t) }

  lemma KeysOfMore(ts: seq<Target>, t: Target)
    ensures TargetKeys(ts + [t]) == TargetKeys(ts) + {KeyOf(t)}
  {
    hide KeyOf;
  }

  /** The first target of each key, leaving out blank destinations. */
  function Firsts(ts: seq<Target>): seq<Target> {
    if ts == [] then []
    else
      var before, last := Firsts(ts[..|ts| - 1]), ts[|ts| - 1];
      if last.destination == "" || KeyOf(last) in TargetKeys(before) then before else before + [last]
  }

  function Placed(ts: seq<Target>): set<(string, string)> { set t | t in ts && t.destination != "" :: KeyOf(t) }

  lemma {:induction false} FirstsHaveAllKeys(ts: seq<Target>)
    ensures forall x :: x in Firsts(ts) ==> x in ts && x.destination != ""
    ensures TargetKeys(Firsts(ts)) == Placed(ts)
    ensures forall i, j :: 0 <= i < j < |Firsts(ts)| ==> KeyOf(Firsts(ts)[i]) != KeyOf(Firsts(ts)[j])
  {
    hide KeyOf;
    if ts != [] {
      var init, last := ts[..|ts| - 1], ts[|ts| - 1];
      FirstsHaveAllKeys(init);
      assert ts == init + [last];
      assert Placed(ts) == Placed(init) + (if last.destination == "" then {} else {KeyOf(last)});
      var before := Firsts(init);
      KeysOfMore(before, last);
      if last.destination != "" && KeyOf(last) !in TargetKeys(before) {
        forall i | 0 <= i < |before| ensures KeyOf(before[i]) != KeyOf(last) {
          assert KeyOf(before[i]) in TargetKeys(before);
        }
      }
    }
  }

  /** Two targets are for one place: the same channel, and destinations that differ in letter case
      at most. */
  predicate SamePlace(a: Target, b: Target) { a.channel == b.channel && Lower(a.destination) == Lower(b.destination) }

  /** x is the first of the targets for its place. */
  ghost predicate ComesFirst(ts: seq<Target>, x: Target) {
    exists k :: 0 <= k < |ts| && ts[k] == x &&
      forall j :: 0 <= j < k ==> ts[j].destination == "" || !SamePlace(ts[j], x)
  }

  /** Of several targets for one place the first is kept. */
  lemma {:induction false} FirstsComeFirst(ts: seq<Target>)
    ensures forall x :: x in Firsts(ts) ==> ComesFirst(ts, x)
  {
    hide SamePlace, KeyOf;
    if ts != [] {
      var init, last := ts[..|ts| - 1], ts[|ts| - 1];
      FirstsComeFirst(init);
      FirstsHaveAllKeys(init);
      forall x | x in Firsts(init) ensures ComesFirst(ts, x) {
        var k :| 0 <= k < |init| && init[k] == x
          && forall j :: 0 <= j < k ==> init[j].destination == "" || !SamePlace(init[j], x);
        assert ts[k] == x && forall j :: 0 <= j < k ==> ts[j] == init[j];
      }
      if last.destination != "" && KeyOf(last) !in TargetKeys(Firsts(init)) {
        forall j | 0 <= j < |init| && ts[j].destination != "" ensures !SamePlace(ts[j], last) {
          assert init[j] == ts[j] && KeyOf(ts[j]) in Placed(init);
          KeyIsPlace(ts[j], last);
        }
        assert ts[|init|] == last;
      }
    }
  }

  lemma KeyIsPlace(a: Target, b: Target)
    ensures KeyOf(a) == KeyOf(b) <==> SamePlace(a, b)
  {
  }

  lemma LowerTwice(s: string)
    ensures Lower(Lower(s)) == Lower(s)
  {
  }

  /** Keeping one more target unless it is blank or its key is there. */
  function Keep(before: seq<Target>, t: Target): seq<Target> {
    if t.destination == "" || KeyOf(t) in TargetKeys(before) then before else before + [t]
  }

  function FirstsUpTo(ts: seq<Target>, n: nat): seq<Target>
    requires n <= |ts|
  {
    Firsts(ts[..n])
  }

  lemma FirstsStep(ts: seq<Target>, n: nat)
    requires n < |ts|
    ensures FirstsUpTo(ts, n + 1) == Keep(FirstsUpTo(ts, n), ts[n])
  {
    hide KeyOf, TargetKeys;
    assert ts[..n + 1][..n] == ts[..n];
  }

  lemma FirstsEnds(ts: seq<Target>)
    ensures FirstsUpTo(ts, 0) == [] && TargetKeys([]) == {} && FirstsUpTo(ts, |ts|) == Firsts(ts)
  {
    hide KeyOf;
    assert ts[..|ts|] == ts;
  }

  lemma EmailKey(email: string)
    ensures KeyOf(FromEmail(email)) == (EMAIL, Lower(Strip(email)))
  {
    LowerTwice(Strip(email));
  }

  method NormalizeDeliveryTargets(emails: seq<string>, targets: seq<Target>) returns (normalized: seq<Target>)
    ensures normalized == Firsts(Requested(emails, targets))
  {
    hide FirstsUpTo, Strip, Lower, TargetKeys, Requested, KeyOf, FromTarget;
    ghost var all := Requested(emails, targets);
    RequestedParts(emails, targets);
    FirstsEnds(all);
    var seen: set<(string, string)> := {};
    normalized := [];
    for i := 0 to |emails|
      invariant normalized == FirstsUpTo(all, i) && seen == TargetKeys(normalized)
    {
      FirstsStep(all, i);
      EmailKey(emails[i]);
      var value := Lower(Strip(emails[i]));
      var key := (EMAIL, value);
      if value == "" { continue; }
      if key in seen { continue; }
      KeysOfMore(normalized, all[i]);
      seen := seen + {key};
      normalized := normalized + [Target(EMAIL, value, true)];
    }
    for j := 0 to |targets|
      invariant normalized == FirstsUpTo(all, |emails| + j) && seen == TargetKeys(normalized)
    {
      FirstsStep(all, |emails| + j);
      var item := FromTarget(targets[j]);
      var key := KeyOf(item);
      if item.destination == "" { continue; }
      if key in seen { continue; }
      KeysOfMore(normalized, item);
      seen := seen + {key};
      normalized := normalized + [item];
    }
  }

  lemma RequestedParts(emails: seq<string>, targets: seq<Target>)
    ensures var all := Requested(emails, targets);
      && |all| == |emails| + |targets|
      && (forall i :: 0 <= i < |emails| ==> all[i] == FromEmail(emails[i]))
      && (forall j :: 0 <= j < |targets| ==> all[|emails| + j] == FromTarget(targets[j]))
  {
    hide FromEmail, FromTarget;
  }

  // ---- Adding to the stored recipients ----

  function RowOf(t: Target): Recipient {
    Recipient(t.channel, t.destination, if t.channel == EMAIL then Some(t.destination) else None, t.isActive)
  }

  function RowKeys(rows: seq<Recipient>): set<(string, string)> { set r | r in rows :: RowKey(r) }

  /** The rows for the targets whose key the report does not have. */
  function NewRows(ts: seq<Target>, taken: set<(string, string)>): seq<Recipient> {
    if ts == [] then []
    else
      var before, last := NewRows(ts[..|ts| - 1], taken), ts[|ts| - 1];
      if KeyOf(last) in taken then before else before + [RowOf(last)]
  }

  lemma NothingNew(taken: set<(string, string)>)
    ensures NewRows([], taken) == []
  {
  }

  lemma NewRowsStep(ts: seq<Target>, taken: set<(string, string)>, i: nat)
    requires i < |ts|
    ensures var before := NewRows(ts[..i], taken);
      NewRows(ts[..i + 1], taken) == if KeyOf(ts[i]) in taken then before else before + [RowOf(ts[i])]
  {
    hide KeyOf, RowOf;
    assert ts[..i + 1][..i] == ts[..i];
  }

  class ReportRecipients {
    var rows: seq<Recipient>

    method Append(emails: seq<string>, targets: seq<Target>) returns (created: seq<Recipient>)
      modifies this
      ensures created == NewRows(Firsts(Requested(emails, targets)), RowKeys(old(rows)))
      ensures rows == old(rows) + created
    {
      hide Firsts, Requested, KeyOf, RowOf, NewRows, RowKeys;
      NothingNew(RowKeys(rows));
      var requested := NormalizeDeliveryTargets(emails, targets);
      var taken := RowKeys(rows);
      created := [];
      for i := 0 to |requested|
        invariant created == NewRows(requested[..i], taken)
        invariant rows == old(rows)
      {
        NewRowsStep(requested, taken, i);
        if KeyOf(requested[i]) in taken { continue; }
        created := created + [RowOf(requested[i])];
      }
      assert requested[..|requested|] == requested;
      rows := rows + created;
    }
  }

  // ---- What holds of the stored recipients ----

  /** The recipient an e-mail address asks for: it is its own destination, without blanks around it
      and in lower case, and active. */
  predicate AsksFor(email: string, r: Recipient) {
    r == Recipient("email", Lower(Strip(email)), Some(Lower(Strip(email))), true)
  }

  /** The recipient a target asks for: by its channel in lower case, by e-mail if it names none, at
      its destination as written but for blanks around it. */
  predicate Asks(t: Target, r: Recipient) {
    && r.channel == (if Lower(Strip(t.channel)) == "" then "email" else Lower(Strip(t.channel)))
    && r.destination == Strip(t.destination) && r.isActive == t.isActive
    && r.email == if r.channel == "email" then Some(r.destination) else None
  }

  lemma {:induction false} NewRowsAreRequested(ts: seq<Target>, taken: set<(string, string)>, r: Recipient)
    requires r in NewRows(ts, taken)
    ensures exists t :: t in ts && r == RowOf(t)
  {
    hide RowOf, KeyOf;
    var init, last := ts[..|ts| - 1], ts[|ts| - 1];
    assert ts == init + [last];
    if r in NewRows(init, taken) {
      NewRowsAreRequested(init, taken, r);
    } else {
      assert last in ts && r == RowOf(last);
    }
  }

  /** Every recipient added is one that an e-mail address or a target of the request asks for. */
  lemma AddedAreAskedFor(rows: seq<Recipient>, emails: seq<string>, targets: seq<Target>, r: Recipient)
    requires r in NewRows(Firsts(Requested(emails, targets)), RowKeys(rows))
    ensures r.destination != ""
    ensures (exists e :: e in emails && AsksFor(e, r)) || exists t :: t in targets && Asks(t, r)
  {
    hide Firsts, Strip, Lower, RowKeys, NewRows, TargetKeys, Placed;
    var all := Requested(emails, targets);
    NewRowsAreRequested(Firsts(all), RowKeys(rows), r);
    FirstsHaveAllKeys(all);
    var t :| t in Firsts(all) && r == RowOf(t);
    var k :| 0 <= k < |all| && all[k] == t;
    RequestedParts(emails, targets);
    if k < |emails| {
      assert emails[k] in emails && AsksFor(emails[k], r);
    } else {
      assert targets[k - |emails|] in targets && Asks(targets[k - |emails|], r);
    }
  }

  lemma StripStripped(s: string)
    ensures Strip(Strip(s)) == Strip(s)
  {
  }

  lemma StripLower(s: string)
    requires Strip(s) == s
    ensures Strip(Lower(s)) == Lower(s)
  {
    var t := Lower(s);
    if s != "" {
      TightEnds(s);
      StripTight(t);
    }
  }

  lemma TightEnds(s: string)
    requires Strip(s) == s && s != ""
    ensures !IsSpace(s[0]) && !IsSpace(s[|s| - 1])
  {
  }

  /** A target in normal form is stored under its own key. */
  lemma StoredKey(emails: seq<string>, targets: seq<Target>, t: Target)
    requires t in Requested(emails, targets) && t.destination != ""
    ensures RowKey(RowOf(t)) == KeyOf(t)
  {
    hide Strip, Lower;
    var all := Requested(emails, targets);
    var i :| 0 <= i < |all| && all[i] == t;
    if i < |emails| {
      assert t == FromEmail(emails[i]);
      StripStripped(emails[i]);
      StripLower(Strip(emails[i]));
    } else {
      var given := targets[i - |emails|];
      assert t == FromTarget(given);
      StripStripped(given.destination);
      StripStripped(given.channel);
      StripLower(Strip(given.channel));
      LowerTwice(Strip(given.channel));
    }
    EmailIsTight();
  }

  lemma EmailIsTight()
    ensures Strip(EMAIL) == EMAIL && Lower(EMAIL) == EMAIL
  {
  }

  ghost predicate DistinctRows(rows: seq<Recipient>) {
    forall i, j :: 0 <= i < j < |rows| ==> RowKey(rows[i]) != RowKey(rows[j])
  }

  lemma {:induction false} NewRowsKeys(ts: seq<Target>, taken: set<(string, string)>)
    requires forall t :: t in ts ==> RowKey(RowOf(t)) == KeyOf(t)
    requires forall i, j :: 0 <= i < j < |ts| ==> KeyOf(ts[i]) != KeyOf(ts[j])
    ensures DistinctRows(NewRows(ts, taken))
    ensures RowKeys(NewRows(ts, taken)) == TargetKeys(ts) - taken
  {
    hide RowKey, KeyOf, RowOf;
    if ts != [] {
      var init, last := ts[..|ts| - 1], ts[|ts| - 1];
      NewRowsKeys(init, taken);
      assert ts == init + [last];
      var before := NewRows(init, taken);
      if KeyOf(last) !in taken {
        assert RowKey(RowOf(last)) !in RowKeys(before);
        assert RowKeys(before + [RowOf(last)]) == RowKeys(before) + {RowKey(RowOf(last))};
      }
      KeysOfMore(init, last);
    }
  }

  lemma DistinctTogether(rows: seq<Recipient>, created: seq<Recipient>)
    requires DistinctRows(rows) && DistinctRows(created) && RowKeys(rows) !! RowKeys(created)
    ensures DistinctRows(rows + created)
  {
    hide RowKey;
    var after := rows + created;
    forall i, j | 0 <= i < j < |after| ensures RowKey(after[i]) != RowKey(after[j]) {
      if i < |rows| <= j {
        assert after[j] == created[j - |rows|];
        assert RowKey(after[i]) in RowKeys(rows) && RowKey(after[j]) in RowKeys(created);
      } else if j < |rows| {
        assert after[i] == rows[i] && after[j] == rows[j];
      } else {
        assert after[i] == created[i - |rows|] && after[j] == created[j - |rows|];
      }
    }
  }

  lemma KeysTogether(rows: seq<Recipient>, created: seq<Recipient>)
    ensures RowKeys(rows + created) == RowKeys(rows) + RowKeys(created)
  {
    hide RowKey;
  }

  /** Adding targets gives every place asked for exactly one recipient, beside those already
      there, and asking for the same again adds none. */
  lemma AppendOncePerPlace(rows: seq<Recipient>, emails: seq<string>, targets: seq<Target>)
    ensures var requested := Requested(emails, targets);
      var after := rows + NewRows(Firsts(requested), RowKeys(rows));
      && RowKeys(after) == RowKeys(rows) + Placed(requested)
      && (DistinctRows(rows) ==> DistinctRows(after))
      && NewRows(Firsts(requested), RowKeys(after)) == []
  {
    hide RowKey, KeyOf, RowOf, Requested, Firsts, RowKeys, Placed, NewRows, DistinctRows;
    var requested := Requested(emails, targets);
    var firsts := Firsts(requested);
    FirstsHaveAllKeys(requested);
    forall t | t in firsts ensures RowKey(RowOf(t)) == KeyOf(t) { StoredKey(emails, targets, t); }
    NewRowsKeys(firsts, RowKeys(rows));
    var created := NewRows(firsts, RowKeys(rows));
    KeysTogether(rows, created);
    if DistinctRows(rows) { DistinctTogether(rows, created); }
    forall t | t in firsts ensures KeyOf(t) in RowKeys(rows + created) { assert KeyOf(t) in TargetKeys(firsts); }
    AllTaken(firsts, RowKeys(rows + created));
  }

  lemma {:induction false} AllTaken(ts: seq<Target>, taken: set<(string, string)>)
    requires forall t :: t in ts ==> KeyOf(t) in taken
    ensures NewRows(ts, taken) == []
  {
    hide KeyOf;
    if ts != [] { AllTaken(ts[..|ts| - 1], taken); }
  }
}
