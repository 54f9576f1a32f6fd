/** Status labels and badge colours. The same `formatStatus` appears in
    app/kitchen/page.tsx, app/admin/page.tsx and components/order-card.tsx
    (as `getStatusLabel`) and is defined once here; the kitchen board and the
    two dashboards each have their own colour table. */
module StatusText {
  import opened Types
  import opened Text

  /** `w.charAt(0).toUpperCase() + w.slice(1)` over every word. */
  function CapitalizeAll(words: seq<string>): (r: seq<string>)
    ensures |r| == |words|
    ensures forall k :: 0 <= k < |words| ==> r[k] == Capitalize(words[k])
  {
    if |words| == 0 then [] else [Capitalize(words[0])] + CapitalizeAll(words[1..])
  }

  /** Reference reading of the label, character by character: each `_` becomes
      a space and the first character of each word is upper-cased; `start`
      says whether `s` begins a word. */
  function Relabel(s: string, start: bool): (r: string)
    ensures |r| == |s|
  {
    if |s| == 0 then ""
    else if s[0] == '_' then " " + Relabel(s[1..], true)
    else [if start then Upper(s[0]) else s[0]] + Relabel(s[1..], false)
  }

  /** The character `Relabel` puts at position `i`. */
  lemma {:induction false} RelabelAt(s: string, start: bool, i: nat)
    requires i < |s|
    ensures Relabel(s, start)[i] ==
      if s[i] == '_' then ' '
      else if (i == 0 && start) || (i > 0 && s[i - 1] == '_') then Upper(s[i])
      else s[i]
    decreases |s|
  {
    if i > 0 {
      RelabelAt(s[1..], s[0] == '_', i - 1);
      assert s[1..][i - 1] == s[i];
      if i > 1 {
        assert s[1..][i - 2] == s[i - 1];
      }
    }
  }

  /** `status.split("_").map(capitalise).join(" ")`. */
  function FormatStatus(status: string): (r: string)
    ensures |r| == |status|
    ensures forall i :: 0 <= i < |status| ==>
      r[i] == if status[i] == '_' then ' '
              else if i == 0 || status[i - 1] == '_' then Upper(status[i])
              else status[i]
  {
    FormatStatusIsRelabel(status);
    var r := Join(CapitalizeAll(Split(status, '_')), " ");
    assert forall i :: 0 <= i < |status| ==>
      r[i] == if status[i] == '_' then ' '
              else if i == 0 || status[i - 1] == '_' then Upper(status[i])
              else status[i]
    by {
      forall i | 0 <= i < |status|
        ensures r[i] == if status[i] == '_' then ' '
                        else if i == 0 || status[i - 1] == '_' then Upper(status[i])
                        else status[i]
      {
        RelabelAt(status, true, i);
        assert r[i] == Relabel(status, true)[i];
      }
    }
    r
  }

  lemma JoinHead(a: string, b: string, t: seq<string>, sep: string)
    ensures Join([a + b] + t, sep) == a + Join([b] + t, sep)
  {
    if |t| > 0 {
      assert ([a + b] + t)[1..] == t;
      assert ([b] + t)[1..] == t;
    }
  }

  /** The pipeline's result for `s` and, leaving the first word as is, for the
      words after it. */
  predicate PipelineAgrees(s: string) {
    && Join(CapitalizeAll(Split(s, '_')), " ") == Relabel(s, true)
    && var parts := Split(s, '_');
       Join([parts[0]] + CapitalizeAll(parts[1..]), " ") == Relabel(s, false)
  }

  /** A leading `_` closes an empty first word. */
  lemma UnderscoreStep(s: string)
    requires |s| > 0 && s[0] == '_' && PipelineAgrees(s[1..])
    ensures PipelineAgrees(s)
  {
    var rest := Split(s[1..], '_');
    assert Split(s, '_') == [""] + rest;
    assert CapitalizeAll([""] + rest) == [""] + CapitalizeAll(rest);
    assert ([""] + rest)[1..] == rest;
    assert Join([""] + CapitalizeAll(rest), " ") == " " + Join(CapitalizeAll(rest), " ");
  }

  /** Any other leading character starts the first word. */
  lemma LetterStep(s: string)
    requires |s| > 0 && s[0] != '_' && PipelineAgrees(s[1..])
    ensures PipelineAgrees(s)
  {
    var rest := Split(s[1..], '_');
    var w := [s[0]] + rest[0];
    var tail := CapitalizeAll(rest[1..]);
    assert Split(s, '_') == [w] + rest[1..];
    assert ([w] + rest[1..])[1..] == rest[1..];
    assert CapitalizeAll([w] + rest[1..]) == [Capitalize(w)] + tail;
    assert Capitalize(w) == [Upper(s[0])] + rest[0];
    JoinHead([Upper(s[0])], rest[0], tail, " ");
    JoinHead([s[0]], rest[0], tail, " ");
    assert rest == [rest[0]] + rest[1..];
    assert CapitalizeAll(rest) == [Capitalize(rest[0])] + tail;
  }

  /** The split/map/join pipeline agrees with the character-level reading; the
      second conclusion covers the words after the first, with the first left as is. */
  lemma {:induction false} FormatStatusIsRelabel(s: string)
    ensures Join(CapitalizeAll(Split(s, '_')), " ") == Relabel(s, true)
    ensures var parts := Split(s, '_');
      Join([parts[0]] + CapitalizeAll(parts[1..]), " ") == Relabel(s, false)
    decreases |s|
  {
    if |s| > 0 {
      FormatStatusIsRelabel(s[1..]);
      if s[0] == '_' {
        UnderscoreStep(s);
      } else {
        LetterStep(s);
      }
    }
  }

  /** The label of any ten-letter status spelled `in_transit`, stated without
      a literal argument so that the pipeline is not evaluated symbolically. */
  lemma InTransitChars(s: string)
    requires |s| == 10 && s[0] == 'i' && s[1] == 'n' && s[2] == '_' && s[3] == 't' && s[4] == 'r'
    requires s[5] == 'a' && s[6] == 'n' && s[7] == 's' && s[8] == 'i' && s[9] == 't'
    ensures FormatStatus(s) == "In Transit"
    ensures MarkAsLabel(s)[8 + 2] == ' ' && MarkAsLabel(s)[8 + 3] == 't'
  {
    var r := FormatStatus(s);
    assert r[0] == 'I' && r[1] == 'n' && r[2] == ' ' && r[3] == 'T' && r[4] == 'r';
    assert r[5] == 'a' && r[6] == 'n' && r[7] == 's' && r[8] == 'i' && r[9] == 't';
  }

  /** `in_transit` is labelled "In Transit". */
  lemma InTransitLabel()
    ensures FormatStatus("in_transit") == "In Transit"
  {
    InTransitChars("in_transit");
  }

  /** `s[i]` is the first `_` after the first character. */
  predicate FirstInTail(s: string, i: nat)
    requires i < |s|
  {
    s[i] == '_' && forall k :: 1 <= k < i ==> s[k] != '_'
  }

  /** The part after "Mark as ": the first character upper-cased and the
      first `_` of the rest turned into a space. */
  function MarkAsTail(s: string): (r: string)
    ensures |r| == |s|
    ensures |s| > 0 ==> r[0] == Upper(s[0])
    ensures forall i :: 1 <= i < |s| ==>
      r[i] == if FirstInTail(s, i) then ' ' else s[i]
  {
    if |s| == 0 then ""
    else
      MarkAsTailChars(s);
      [Upper(s[0])] + ReplaceFirst(s[1..], '_', ' ')
  }

  lemma MarkAsTailChars(s: string)
    requires |s| > 0
    ensures var r := [Upper(s[0])] + ReplaceFirst(s[1..], '_', ' ');
      forall i :: 1 <= i < |s| ==>
        r[i] == if FirstInTail(s, i) then ' ' else s[i]
  {
    var r := [Upper(s[0])] + ReplaceFirst(s[1..], '_', ' ');
    forall i | 1 <= i < |s|
      ensures r[i] == if FirstInTail(s, i) then ' ' else s[i]
    {
      MarkAsTailAt(s, i);
      assert r[i] == ReplaceFirst(s[1..], '_', ' ')[i - 1];
    }
  }

  lemma MarkAsTailAt(s: string, i: nat)
    requires 1 <= i < |s|
    ensures ReplaceFirst(s[1..], '_', ' ')[i - 1] ==
      if FirstInTail(s, i) then ' ' else s[i]
  {
    var t := s[1..];
    ReplaceFirstAt(t, '_', ' ', i - 1);
    assert t[i - 1] == s[i];
    assert (forall k :: 0 <= k < i - 1 ==> t[k] != '_') <==> (forall k :: 1 <= k < i ==> s[k] != '_') by {
      assert forall k :: 0 <= k < i - 1 ==> t[k] == s[k + 1];
    }
  }

  /** The board button's text:
      `"Mark as " + s.charAt(0).toUpperCase() + s.slice(1).replace("_", " ")`. */
  function MarkAsLabel(nextStatus: string): (r: string)
    ensures |r| == 8 + |nextStatus| && r[..8] == "Mark as "
    ensures |nextStatus| > 0 ==> r[8] == Upper(nextStatus[0])
    ensures forall i :: 1 <= i < |nextStatus| ==>
      r[8 + i] == if FirstInTail(nextStatus, i) then ' ' else nextStatus[i]
  {
    "Mark as " + MarkAsTail(nextStatus)
  }

  /** For a status without `_` the button shows "Mark as " and the formatted status. */
  lemma MarkAsMatchesFormat(s: string)
    requires '_' !in s
    ensures MarkAsLabel(s) == "Mark as " + FormatStatus(s)
  {
    var a := MarkAsLabel(s);
    var f := FormatStatus(s);
    var b := "Mark as " + f;
    forall i | 8 <= i < |a| ensures a[i] == b[i] {
      var k := i - 8;
      assert s[k] != '_';
      assert b[i] == f[k];
      if k > 0 {
        assert s[k - 1] != '_';
      }
    }
  }

  /** With a second `_` the button keeps it: only the first is replaced, so it
      reads "In transit" where the dashboards read "In Transit". */
  lemma MarkAsOnlyFirstUnderscore(s: string, i: nat, j: nat)
    requires 1 <= i < j < |s| && s[i] == '_' && s[j] == '_'
    ensures MarkAsLabel(s)[8 + j] == '_'
  {
    assert s[i] == '_';
  }

  /** The board's label for `in_transit` keeps the second word lower-case
      ("Mark as In transit") where the dashboards print "In Transit". */
  lemma MarkAsInTransit()
    ensures MarkAsLabel("in_transit")[8 + 2] == ' ' && MarkAsLabel("in_transit")[8 + 3] == 't'
    ensures FormatStatus("in_transit")[3] == 'T'
  {
    InTransitChars("in_transit");
  }

  datatype Colour = Blue | Purple | Yellow | Green | Orange | Red | Neutral

  /** The kitchen board's badge colour (app/kitchen/page.tsx). */
  function KitchenStatusColour(status: string): (c: Colour)
    ensures status == StatusName(Pending) <==> c == Blue
    ensures status == StatusName(Confirmed) <==> c == Purple
    ensures status == StatusName(Preparing) <==> c == Yellow
    ensures status == StatusName(Ready) <==> c == Green
    ensures status == StatusName(Assigned) <==> c == Orange
    ensures c != Red
  {
    if status == "pending" then Blue
    else if status == "confirmed" then Purple
    else if status == "preparing" then Yellow
    else if status == "ready" then Green
    else if status == "assigned" then Orange
    else Neutral
  }

  /** The admin table's and the order card's badge colour: pending and
      confirmed share purple. */
  function DashboardStatusColour(status: string): (c: Colour)
    ensures status == StatusName(Delivered) <==> c == Green
    ensures status == StatusName(InTransit) <==> c == Blue
    ensures status == StatusName(Preparing) <==> c == Yellow
    ensures status == StatusName(Pending) || status == StatusName(Confirmed) <==> c == Purple
    ensures status == StatusName(Cancelled) <==> c == Red
    ensures c != Orange
  {
    if status == "delivered" then Green
    else if status == "in_transit" then Blue
    else if status == "preparing" then Yellow
    else if status == "pending" || status == "confirmed" then Purple
    else if status == "cancelled" then Red
    else Neutral
  }

  /** The statuses each table does not list get the neutral colour. */
  lemma UnlistedStatusesNeutral(s: Status)
    ensures s in {AwaitingDelivery, InTransit, Delivered, Cancelled} <==> KitchenStatusColour(StatusName(s)) == Neutral
    ensures s in {Ready, AwaitingDelivery, Assigned} <==> DashboardStatusColour(StatusName(s)) == Neutral
  {
  }
}
