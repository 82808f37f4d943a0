/** Addresses as text: printing and parsing. */
module MacText {
  import opened Addresses

  const COLON := ':'

  /* Printing: six groups of two lower-case digits */

  function Digit(n: nat): (c: char)
    requires n < 16
    ensures IsHex(c) && Value(c) == n
  {
    if n < 10 then '0' + n as char else 'a' + (n - 10) as char
  }

  function Two(b: Byte): string {
    [Digit(b / 16), Digit(b % 16)]
  }

  function Print(m: Mac): string {
    Two(m.b0) + [COLON] + Two(m.b1) + [COLON] + Two(m.b2) + [COLON] + Two(m.b3) + [COLON] + Two(m.b4) + [COLON]
    + Two(m.b5)
  }

  /* What a text denotes */

  predicate IsHex(c: char) {
    '0' <= c <= '9' || 'a' <= c <= 'f' || 'A' <= c <= 'F'
  }

  function Value(c: char): (n: nat)
    requires IsHex(c)
    ensures n < 16
  {
    if '0' <= c <= '9' then c as nat - '0' as nat
    else if 'a' <= c <= 'f' then c as nat - 'a' as nat + 10
    else c as nat - 'A' as nat + 10
  }

  // The colon-separated groups of a text
  function Groups(s: string): (g: seq<string>)
    ensures |g| > 0
  {
    if s == "" then [""]
    else
      var g, c := Groups(s[..|s| - 1]), s[|s| - 1];
      if c == COLON then g + [""] else g[..|g| - 1] + [g[|g| - 1] + [c]]
  }

  function Joined(gs: seq<string>): string
    requires gs != []
  {
    if |gs| == 1 then gs[0] else Joined(gs[..|gs| - 1]) + [COLON] + gs[|gs| - 1]
  }

  // The groups are the pieces between the colons, with none lost.
  lemma {:induction false} GroupsJoined(s: string)
    ensures Joined(Groups(s)) == s && forall j :: 0 <= j < |Groups(s)| ==> COLON !in Groups(s)[j]
  {
    if s != "" {
      var init, c := s[..|s| - 1], s[|s| - 1];
      var g, h := Groups(init), Groups(s);
      GroupsJoined(init);
      assert s == init + [c];
      if c == COLON {
        assert h[..|g|] == g;
        assert Joined(h) == Joined(g) + [COLON] + "";
      } else {
        assert h[..|g| - 1] == g[..|g| - 1];
        assert |g| > 1 ==> Joined(h) == Joined(g[..|g| - 1]) + [COLON] + (g[|g| - 1] + [c]);
      }
    }
  }

  predicate AllHex(g: string) {
    forall i :: 0 <= i < |g| ==> IsHex(g[i])
  }

  predicate Good(g: string) {
    |g| <= 2 && AllHex(g)
  }

  function Denoted(g: string): (n: Byte)
    requires Good(g)
  {
    if |g| == 0 then 0 else if |g| == 1 then Value(g[0]) else Value(g[0]) * 16 + Value(g[1])
  }

  predicate AllGood(gs: seq<string>) {
    forall j :: 0 <= j < |gs| ==> Good(gs[j])
  }

  // Six groups, all good
  predicate IsAddress(s: string) {
    |Groups(s)| == 6 && AllGood(Groups(s))
  }

  // How many groups are good before the first bad one
  function Lead(gs: seq<string>): (n: nat)
    ensures n <= |gs|
  {
    if gs == [] || !Good(gs[0]) then 0 else 1 + Lead(gs[1..])
  }

  // What the parser takes for an address, and what it would write a seventh byte for
  predicate Accepted(s: string) {
    Lead(Groups(s)) == 6
  }

  predicate Overruns(s: string) {
    Lead(Groups(s)) > 6
  }

  lemma {:induction false} LeadIs(gs: seq<string>, n: nat)
    requires n <= |gs| && AllGood(gs[..n])
    ensures n <= Lead(gs) && (n < |gs| && !Good(gs[n]) ==> Lead(gs) == n)
  {
    if n > 0 {
      assert gs[..n][0] == gs[0] && gs[1..][..n - 1] == gs[..n][1..];
      LeadIs(gs[1..], n - 1);
    }
  }

  lemma {:induction false} LeadGood(gs: seq<string>)
    ensures AllGood(gs[..Lead(gs)]) && (Lead(gs) < |gs| ==> !Good(gs[Lead(gs)]))
  {
    if gs != [] && Good(gs[0]) {
      LeadGood(gs[1..]);
      var n := Lead(gs);
      assert gs[..n] == [gs[0]] + gs[1..][..n - 1];
    }
  }

  function Parse(s: string): Option<Mac> {
    var g := Groups(s);
    if Accepted(s)
    then
      LeadGood(g);
      assert forall j :: 0 <= j < 6 ==> g[j] == g[..6][j];
      Some(Mac(Denoted(g[0]), Denoted(g[1]), Denoted(g[2]), Denoted(g[3]), Denoted(g[4]), Denoted(g[5])))
    else None
  }

  // With at most five colons, exactly the addresses are accepted.
  lemma FiveColons(s: string)
    requires |Groups(s)| <= 6
    ensures !Overruns(s) && (Accepted(s) <==> IsAddress(s))
  {
    var g := Groups(s);
    LeadGood(g);
    assert g[..|g|] == g;
    LeadIs(g, if AllGood(g) then |g| else 0);
  }

  // With more, texts are accepted that are no addresses: after six good groups, the seventh only has to be bad.
  lemma SixColons(s: string)
    requires |Groups(s)| > 6
    ensures Accepted(s) <==> AllGood(Groups(s)[..6]) && !Good(Groups(s)[6])
    ensures Overruns(s) <==> AllGood(Groups(s)[..7])
  {
    var g := Groups(s);
    LeadGood(g);
    if AllGood(g[..6]) { LeadIs(g, 6); }
    if AllGood(g[..7]) { LeadIs(g, 7); }
    if Overruns(s) { assert g[..7] == g[..Lead(g)][..7]; }
  }

  // Such as an address with a colon and anything after it that is no digit and no colon
  lemma TrailingAccepted(s: string, c: char)
    requires IsAddress(s) && c != COLON && !IsHex(c)
    ensures var t := s + [COLON] + [c]; Accepted(t) && !IsAddress(t) && !Overruns(t)
  {
    hide Groups;
    var g, t := Groups(s), s + [COLON] + [c];
    GroupsPushed(s, COLON);
    GroupsPushed(s + [COLON], c);
    assert (g + [""])[..6] == g;
    var x: string := "";
    assert x + [c] == [c];
    assert Groups(t) == g + [[c]];
    assert Groups(t)[..6] == g && Groups(t)[6] == [c] && !IsHex([c][0]);
    LeadIs(Groups(t), 6);
  }

  /* The parser */

  lemma GroupsPushed(s: string, c: char)
    ensures var g := Groups(s);
            Groups(s + [c]) == if c == COLON then g + [""] else g[..|g| - 1] + [g[|g| - 1] + [c]]
  {
    assert (s + [c])[..|s|] == s;
  }

  // What a text begins with decides all but the last of its groups, and how that one begins.
  lemma {:induction false} GroupsExtend(s: string, n: nat)
    requires n <= |s|
    ensures var g, h := Groups(s[..n]), Groups(s);
            |g| <= |h| && g[..|g| - 1] == h[..|g| - 1] && g[|g| - 1] <= h[|g| - 1]
    decreases |s|
  {
    if n == |s| {
      assert s[..n] == s;
    } else {
      var init := s[..|s| - 1];
      GroupsExtend(init, n);
      assert init[..n] == s[..n];
    }
  }

  // A bad group in sight stays bad: what comes before it leads.
  lemma BadGroup(s: string, n: nat)
    requires n <= |s| && AllGood(Groups(s[..n])[..|Groups(s[..n])| - 1])
    requires !Good(Groups(s[..n])[|Groups(s[..n])| - 1])
    ensures Lead(Groups(s)) == |Groups(s[..n])| - 1
  {
    var g, h := Groups(s[..n]), Groups(s);
    var i, bad := |g| - 1, g[|g| - 1];
    GroupsExtend(s, n);
    if |bad| <= 2 {
      var j :| 0 <= j < |bad| && !IsHex(bad[j]);
      assert h[i][j] == bad[j];
    }
    LeadIs(h, i);
  }

  // At a colon, the groups so far are all in the lead.
  lemma ColonLeads(s: string, n: nat)
    requires n < |s| && s[n] == COLON && AllGood(Groups(s[..n]))
    ensures |Groups(s[..n])| <= Lead(Groups(s))
  {
    var g, h := Groups(s[..n]), Groups(s);
    assert s[..n + 1] == s[..n] + [COLON];
    GroupsPushed(s[..n], COLON);
    GroupsExtend(s, n + 1);
    assert (g + [""])[..|g|] == g;
    LeadIs(h, |g|);
  }

  // Writes one byte for each good group before the first bad one, and returns their number. The source does not
  // look at the size of the address.
  method StringToMac(str: string, addr: array<Byte>) returns (count: nat)
    requires Lead(Groups(str)) <= addr.Length
    modifies addr
    ensures count == Lead(Groups(str))
    ensures forall j :: 0 <= j < count ==> Good(Groups(str)[j]) && addr[j] == Denoted(Groups(str)[j])
    ensures forall j :: count <= j < addr.Length ==> addr[j] == old(addr[j])
  {
    hide Groups, Good, Denoted, IsHex, Value, Lead;
    count := 0;
    var countPart: nat, value: nat := 0, 0;
    GroupsNone();
    ghost var g := Groups("");
    var i := 0;
    assert str[..0] == "";
    while i < |str|
      invariant 0 <= i <= |str| && g == Groups(str[..i]) && count == |g| - 1 <= addr.Length
      invariant AllGood(g) && countPart == |g[count]|
      invariant forall j :: 0 <= j < count ==> addr[j] == Denoted(g[j])
      invariant forall j :: count <= j < addr.Length ==> addr[j] == old(addr[j])
      invariant value == Denoted(g[count])
    {
      var c := str[i];
      ghost var h := g;
      assert str[..i + 1] == str[..i] + [c];
      GroupsPushed(str[..i], c);
      g := Groups(str[..i + 1]);
      LastGood(h);
      if c == COLON {
        ColonLeads(str, i);
        ColonNext(h);
        addr[count] := if countPart == 0 then 0 else value;
        countPart := 0;
        count := count + 1;
        value := 0;
        i := i + 1;
        continue;
      }
      DigitNext(h, c);
      if countPart >= 2 || !IsHex(c) {
        BadGroup(str, i + 1);
        FirstGroups(str, i + 1);
        return count;
      }
      value := Value(c) + value * if countPart == 0 then 1 else 16;
      countPart := countPart + 1;
      i := i + 1;
    }
    assert str[..i] == str;
    AllRead(str);
    addr[count] := if countPart == 0 then 0 else value;
    count := count + 1;
  }

  // The complete groups of a beginning are groups of the whole.
  lemma FirstGroups(s: string, n: nat)
    requires n <= |s|
    ensures var g, h := Groups(s[..n]), Groups(s);
            |g| <= |h| && forall j :: 0 <= j < |g| && j != |g| - 1 ==> h[j] == g[j]
  {
    GroupsExtend(s, n);
    var g, h := Groups(s[..n]), Groups(s);
    var m := |g| - 1;
    forall j | 0 <= j < m
      ensures h[j] == g[j]
    {
      assert h[..m][j] == g[..m][j];
    }
  }

  lemma AllRead(s: string)
    requires AllGood(Groups(s))
    ensures Lead(Groups(s)) == |Groups(s)|
  {
    assert Groups(s)[..|Groups(s)|] == Groups(s);
    LeadIs(Groups(s), |Groups(s)|);
  }

  lemma GroupsNone()
    ensures Groups("") == [""] && AllGood([""]) && Good("") && Denoted("") == 0
  {
  }

  lemma LastGood(g: seq<string>)
    requires g != [] && AllGood(g)
    ensures var last := g[|g| - 1]; Good(last) && |last| <= 2 && (|last| == 0 ==> Denoted(last) == 0)
  {
  }

  // Where a group ends, a new empty one begins.
  lemma ColonNext(g: seq<string>)
    requires AllGood(g)
    ensures AllGood(g + [""]) && Good("") && Denoted("") == 0
  {
  }

  // A further character of the last group
  lemma DigitNext(g: seq<string>, c: char)
    requires g != [] && AllGood(g)
    ensures var last := g[|g| - 1];
            var h := g[..|g| - 1] + [last + [c]];
            if |last| < 2 && IsHex(c) then
              && AllGood(h) && Good(last) && Good(last + [c])
              && Denoted(last + [c]) == Value(c) + Denoted(last) * (if |last| == 0 then 1 else 16)
            else !Good(last + [c])
  {
    var last := g[|g| - 1];
    assert Good(last);
    assert (last + [c])[|last|] == c;
    assert forall i :: 0 <= i < |last| ==> (last + [c])[i] == last[i];
  }

  // The constructor from text: on an error all bytes are zero.
  method FromText(str: string) returns (mac: Mac, ok: bool)
    requires !Overruns(str)
    ensures ok <==> Accepted(str)
    ensures mac == if Accepted(str) then Parse(str).value else ZERO_MAC
  {
    var addr := new Byte[6];
    var count := StringToMac(str, addr);
    if count != 6 {
      return ZERO_MAC, false;
    }
    return Mac(addr[0], addr[1], addr[2], addr[3], addr[4], addr[5]), true;
  }

  /* Round trip */

  lemma GroupAdded(s: string, b: Byte)
    ensures Groups(s + [COLON] + Two(b)) == Groups(s) + [Two(b)]
  {
    hide Groups, Digit;
    var g, d, e := Groups(s), Two(b)[0], Two(b)[1];
    assert (g + [""])[..|g|] == (g + [[d]])[..|g|] == g;
    assert "" + [d] == [d] && [d] + [e] == Two(b);
    GroupsPushed(s, COLON);
    GroupsPushed(s + [COLON], d);
    GroupsPushed(s + [COLON] + [d], e);
    assert s + [COLON] + Two(b) == s + [COLON] + [d] + [e];
  }

  lemma TwoDenotes(b: Byte)
    ensures Good(Two(b)) && Denoted(Two(b)) == b
  {
  }

  lemma TwoAlone(b: Byte)
    ensures Groups(Two(b)) == [Two(b)]
  {
    GroupsNone();
    GroupsPushed("", Two(b)[0]);
    GroupsPushed("" + [Two(b)[0]], Two(b)[1]);
    assert Two(b) == "" + [Two(b)[0]] + [Two(b)[1]];
  }

  // Parsing what was printed gives the address back.
  lemma RoundTrip(m: Mac)
    ensures Parse(Print(m)) == Some(m) && IsAddress(Print(m))
  {
    hide Two, Groups, Denoted, Good, Lead;
    var s0 := Two(m.b0);
    var s1 := s0 + [COLON] + Two(m.b1);
    var s2 := s1 + [COLON] + Two(m.b2);
    var s3 := s2 + [COLON] + Two(m.b3);
    var s4 := s3 + [COLON] + Two(m.b4);
    TwoAlone(m.b0);
    GroupAdded(s0, m.b1);
    GroupAdded(s1, m.b2);
    GroupAdded(s2, m.b3);
    GroupAdded(s3, m.b4);
    GroupAdded(s4, m.b5);
    TwoDenotes(m.b0);
    TwoDenotes(m.b1);
    TwoDenotes(m.b2);
    TwoDenotes(m.b3);
    TwoDenotes(m.b4);
    TwoDenotes(m.b5);
    AllRead(Print(m));
  }

  // So no two addresses print alike.
  lemma PrintInjective(m: Mac, n: Mac)
    requires Print(m) == Print(n)
    ensures m == n
  {
    RoundTrip(m);
    RoundTrip(n);
  }

  // The digits, and the order of bytes and digits
  lemma DigitAt(n: nat)
    requires n < 16
    ensures Digit(n) == "0123456789abcdef"[n]
  {
  }

  lemma TwoOf(b: Byte)
    ensures Two(b) == ["0123456789abcdef"[b / 16], "0123456789abcdef"[b % 16]]
  {
    DigitAt(b / 16);
    DigitAt(b % 16);
  }

  lemma PrintExample()
    ensures Print(Mac(1, 35, 69, 103, 137, 171)) == "01:23:45:67:89:ab"
  {
    hide Two;
    TwoOf(1);
    TwoOf(35);
    TwoOf(69);
    TwoOf(103);
    TwoOf(137);
    TwoOf(171);
  }

  /* Letters of either case */

  function Upper(c: char): char {
    if 'a' <= c <= 'z' then c - 'a' + 'A' else c
  }

  function Uppers(s: string): (t: string)
    ensures |t| == |s| && forall i :: 0 <= i < |s| ==> t[i] == Upper(s[i])
  {
    if s == "" then "" else Uppers(s[..|s| - 1]) + [Upper(s[|s| - 1])]
  }

  function AllUppers(gs: seq<string>): seq<string> {
    seq(|gs|, i requires 0 <= i < |gs| => Uppers(gs[i]))
  }

  lemma UppersPushed(s: string, c: char)
    ensures Uppers(s + [c]) == Uppers(s) + [Upper(c)]
  {
  }

  lemma AllUppersPushed(gs: seq<string>, g: string)
    ensures AllUppers(gs + [g]) == AllUppers(gs) + [Uppers(g)]
  {
  }

  lemma UppersNone()
    ensures Uppers("") == "" && AllUppers([""]) == [""] && Groups("") == [""]
  {
  }

  lemma {:induction false} GroupsUpper(s: string)
    ensures Groups(Uppers(s)) == AllUppers(Groups(s))
  {
    hide Upper, Uppers, AllUppers, Groups;
    UppersNone();
    if s != "" {
      var init, c := s[..|s| - 1], s[|s| - 1];
      var g := Groups(init);
      assert s == init + [c];
      GroupsUpper(init);
      GroupsPushed(init, c);
      UppersPushed(init, c);
      GroupsPushed(Uppers(init), Upper(c));
      ColonUpper(c);
      LastUpper(g, c);
    }
  }

  lemma LastUpper(g: seq<string>, c: char)
    requires g != []
    ensures var n, u := |g| - 1, AllUppers(g);
            && AllUppers(g + [""]) == u + [""]
            && |u| == |g| && AllUppers(g[..n] + [g[n] + [c]]) == u[..n] + [u[n] + [Upper(c)]]
  {
    hide Upper, Uppers;
    UppersNone();
    UppersPushed(g[|g| - 1], c);
    AllUppersPushed(g, "");
    AllUppersPushed(g[..|g| - 1], g[|g| - 1] + [c]);
  }

  lemma ColonUpper(c: char)
    ensures Upper(c) == COLON <==> c == COLON
  {
  }

  lemma DigitUpper(c: char)
    ensures IsHex(Upper(c)) <==> IsHex(c)
    ensures IsHex(c) ==> Value(Upper(c)) == Value(c)
  {
  }

  lemma GoodUpper(g: string)
    ensures Good(Uppers(g)) <==> Good(g)
    ensures Good(g) ==> Denoted(Uppers(g)) == Denoted(g)
  {
    hide IsHex, Value, Upper;
    forall i | 0 <= i < |g| { DigitUpper(g[i]); }
    if !AllHex(g) {
      var i :| 0 <= i < |g| && !IsHex(g[i]);
      assert !IsHex(Uppers(g)[i]);
    }
  }

  lemma {:induction false} LeadUpper(gs: seq<string>)
    ensures Lead(AllUppers(gs)) == Lead(gs)
  {
    hide Good;
    if gs != [] {
      GoodUpper(gs[0]);
      LeadUpper(gs[1..]);
      assert AllUppers(gs)[1..] == AllUppers(gs[1..]);
    }
  }

  // A text in capitals denotes what it does otherwise.
  lemma CaseIgnored(s: string)
    ensures Parse(Uppers(s)) == Parse(s)
  {
    hide Groups, Good, Denoted, Lead;
    var g := Groups(s);
    GroupsUpper(s);
    LeadUpper(g);
    if Accepted(s) {
      LeadGood(g);
      forall j | 0 <= j < 6
        ensures Good(g[j]) && Good(Uppers(g[j])) && Denoted(Uppers(g[j])) == Denoted(g[j])
      {
        assert g[j] == g[..6][j];
        GoodUpper(g[j]);
      }
    }
  }
}
