/** The normal form of internal/validation/stages/normalize.go and the syntax rules of
    internal/validation/stages/syntax.go, on ASCII text. */
module Addresses {
  import opened Bytes

  // Library functions the program calls, each answering a value or an error.
  datatype World = World(toASCII: Text -> Option<Text>,        // idna.Lookup.ToASCII
                         parseAddress: Text -> Option<Text>)   // net/mail ParseAddress

  // "gmail.com"
  const GMAIL: Text := [103, 109, 97, 105, 108, 46, 99, 111, 109]
  // "googlemail.com"
  const GOOGLEMAIL: Text := [103, 111, 111, 103, 108, 101, 109, 97, 105, 108, 46, 99, 111, 109]

  predicate IsGmail(domain: Text) { domain == GMAIL || domain == GOOGLEMAIL }

  // Everything before the first '+', without dots.
  function Mailbox(local: Text): (r: Text)
    ensures DOT !in r && PLUS !in r && |r| <= |local|
    ensures forall x :: x in r ==> x in local
  {
    var plus := FirstIndex(local, PLUS);
    Remove(if plus >= 0 then local[..plus] else local, DOT)
  }

  datatype Form = Form(normalized: Text, local: Text, domain: Text)

  predicate Splits(s: Text) {
    0 < LastIndex(s, AT) < |s| - 1
  }

  function LocalOf(s: Text): Text
    requires Splits(s)
  {
    s[..LastIndex(s, AT)]
  }

  function DomainOf(s: Text): Text
    requires Splits(s)
  {
    s[LastIndex(s, AT) + 1..]
  }

  function AsciiDomain(w: World, domain: Text): Text {
    match w.toASCII(domain) case Some(d) => d case None => domain
  }

  function Clean(raw: Text): Text { Lower(Trim(raw)) }

  function Join(local: Text, domain: Text): Text { local + [AT] + domain }

  // The form of a trimmed, lower-case address.
  function FormOf(local: Text, domain: Text): Form {
    if IsGmail(domain) then Form(Join(Mailbox(local), GMAIL), Mailbox(local), GMAIL)
    else Form(Join(local, domain), local, domain)
  }

  // The fields Normalize leaves behind; all empty when there is nothing to normalise.
  function Normalize(w: World, raw: Text): Form {
    var s := Clean(raw);
    if !Splits(s) then Form(s, [], []) else FormOf(LocalOf(s), AsciiDomain(w, DomainOf(s)))
  }

  // ---------- the normal form is a normal form ----------

  predicate Ascii(s: Text) { forall x :: x in s ==> x < 128 }

  // IDNA has nothing to convert in lower-case ASCII: it keeps the domain or rejects it.
  ghost predicate IdnaKeepsAscii(w: World) {
    forall d :: Ascii(d) && Lower(d) == d ==> w.toASCII(d) == None || w.toASCII(d) == Some(d)
  }

  lemma LowerIsLower(s: Text)
    ensures Lower(Lower(s)) == Lower(s)
    ensures Ascii(s) ==> Ascii(Lower(s))
    ensures forall i :: 0 <= i < |s| ==> (IsSpace(Lower(s)[i]) <==> IsSpace(s[i]))
  {
    assert forall i :: 0 <= i < |s| ==> Lower(s)[i] == LowerByte(s[i]);
    forall x | x in Lower(s) && Ascii(s) ensures x < 128 {
      var i :| 0 <= i < |s| && Lower(s)[i] == x;
      assert s[i] in s;
    }
  }

  lemma LowerByBytes(s: Text)
    ensures Lower(s) == s <==> forall x :: x in s ==> LowerByte(x) == x
  {
    if forall x :: x in s ==> LowerByte(x) == x {
      assert forall i :: 0 <= i < |s| ==> Lower(s)[i] == s[i];
    } else {
      var x :| x in s && LowerByte(x) != x;
      var i :| 0 <= i < |s| && s[i] == x;
      assert Lower(s)[i] != s[i];
    }
  }

  lemma TrimIsIdentityIff(s: Text)
    ensures Trim(s) == s <==> s == [] || (!IsSpace(s[0]) && !IsSpace(s[|s| - 1]))
  {
  }

  lemma {:induction false} TrimBytes(s: Text)
    ensures forall x :: x in Trim(s) ==> x in s
    decreases |s|
  {
    LeftBytes(s);
  }

  lemma {:induction false} LeftBytes(s: Text)
    ensures forall x :: x in TrimLeft(s) ==> x in s
    decreases |s|
  {
    if s != [] && IsSpace(s[0]) { LeftBytes(s[1..]); }
  }

  lemma CleanIsClean(raw: Text)
    ensures var s := Clean(raw);
      Lower(s) == s && Trim(s) == s && (Ascii(raw) ==> Ascii(s))
  {
    LowerIsLower(Trim(raw));
    TrimBytes(raw);
    TrimIsIdentityIff(Clean(raw));
  }

  lemma {:induction false} LastIndexAt(front: Text, back: Text, c: byte)
    requires c !in back
    ensures LastIndex(front + [c] + back, c) == |front|
    decreases |back|
  {
    if back != [] {
      var s := front + [c] + back;
      assert s[|s| - 1] == back[|back| - 1];
      assert s[..|s| - 1] == front + [c] + back[..|back| - 1];
      LastIndexAt(front, back[..|back| - 1], c);
    }
  }

  // Joining and splitting undo each other.
  lemma JoinSplits(local: Text, domain: Text)
    requires AT !in domain
    ensures var s := Join(local, domain);
      && LastIndex(s, AT) == |local| && |s| == |local| + 1 + |domain|
      && (Splits(s) <==> local != [] && domain != [])
      && (Splits(s) ==> LocalOf(s) == local && DomainOf(s) == domain)
  {
    LastIndexAt(local, domain, AT);
    assert Join(local, domain)[..|local|] == local && Join(local, domain)[|local| + 1..] == domain;
  }

  lemma Rejoined(s: Text)
    requires Splits(s)
    ensures Join(LocalOf(s), DomainOf(s)) == s && AT !in DomainOf(s)
    ensures LocalOf(s) != [] && DomainOf(s) != []
  {
  }

  lemma JoinBytes(local: Text, domain: Text)
    ensures Lower(Join(local, domain)) == Join(local, domain) <==> Lower(local) == local && Lower(domain) == domain
    ensures Ascii(Join(local, domain)) <==> Ascii(local) && Ascii(domain)
  {
    LowerByBytes(local);
    LowerByBytes(domain);
    LowerByBytes(Join(local, domain));
    assert forall x :: x in Join(local, domain) <==> x in local || x == AT || x in domain;
  }

  lemma GmailIsPlain()
    ensures |GMAIL| == 9 && |GOOGLEMAIL| == 14 && AT !in GMAIL && Ascii(GMAIL)
    ensures Lower(GMAIL) == GMAIL && !IsSpace(GMAIL[8])
  {
    LowerByBytes(GMAIL);
  }

  // What Normalize makes of an already clean address.
  lemma NormalizeClean(w: World, s: Text)
    requires IdnaKeepsAscii(w) && Clean(s) == s && Ascii(s)
    ensures Normalize(w, s) == if Splits(s) then FormOf(LocalOf(s), DomainOf(s)) else Form(s, [], [])
  {
    if Splits(s) {
      Rejoined(s);
      LowerByBytes(s);
      JoinBytes(LocalOf(s), DomainOf(s));
    }
  }

  lemma NormalizeOfClean(w: World, raw: Text)
    requires IdnaKeepsAscii(w) && Ascii(raw)
    ensures Clean(Clean(raw)) == Clean(raw) && Ascii(Clean(raw)) && Normalize(w, raw) == Normalize(w, Clean(raw))
  {
    CleanIsClean(raw);
  }

  predicate GmailAddress(w: World, raw: Text) {
    var s := Clean(raw);
    Splits(s) && IsGmail(AsciiDomain(w, DomainOf(s)))
  }

  // Deleting dots uncovers a space at the front of a Gmail local part.
  predicate HidesSpace(w: World, raw: Text) {
    GmailAddress(w, raw) && Mailbox(LocalOf(Clean(raw))) != [] && IsSpace(Mailbox(LocalOf(Clean(raw)))[0])
  }

  lemma {:induction false} RemoveNothing(s: Text, c: byte)
    requires c !in s
    ensures Remove(s, c) == s
    decreases |s|
  {
    if s != [] {
      RemoveNothing(s[1..], c);
      assert s == [s[0]] + s[1..];
    }
  }

  lemma MailboxIsStable(box: Text)
    requires DOT !in box && PLUS !in box
    ensures Mailbox(box) == box
  {
    assert FirstIndex(box, PLUS) == -1;
    RemoveNothing(box, DOT);
  }

  lemma GmailFormIsStable(w: World, box: Text)
    requires IdnaKeepsAscii(w) && DOT !in box && PLUS !in box && Lower(box) == box && Ascii(box)
    requires box != [] ==> !IsSpace(box[0])
    ensures Normalize(w, Join(box, GMAIL)).normalized == Join(box, GMAIL)
  {
    var s := Join(box, GMAIL);
    GmailIsPlain();
    JoinBytes(box, GMAIL);
    JoinSplits(box, GMAIL);
    assert !IsSpace(s[0]) && s[|s| - 1] == GMAIL[8];
    TrimIsIdentityIff(s);
    NormalizeClean(w, s);
    MailboxIsStable(box);
  }

  // The form is never longer than the clean address.
  lemma FormShrinks(w: World, s: Text)
    requires IdnaKeepsAscii(w) && Clean(s) == s && Ascii(s)
    ensures |Normalize(w, s).normalized| <= |s|
  {
    NormalizeClean(w, s);
    if Splits(s) {
      Rejoined(s);
      GmailIsPlain();
    }
  }

  lemma GmailCase(w: World, s: Text)
    requires IdnaKeepsAscii(w) && Clean(s) == s && Ascii(s) && Splits(s) && IsGmail(DomainOf(s))
    ensures var box := Mailbox(LocalOf(s)); var n := Join(box, GMAIL);
      && Lower(box) == box && Ascii(box) && Ascii(n)
      && (Normalize(w, n).normalized == n <==> !(box != [] && IsSpace(box[0])))
  {
    var box := Mailbox(LocalOf(s));
    var n := Join(box, GMAIL);
    Rejoined(s);
    JoinBytes(LocalOf(s), DomainOf(s));
    LowerByBytes(LocalOf(s));
    LowerByBytes(box);
    GmailIsPlain();
    JoinBytes(box, GMAIL);
    if box != [] && IsSpace(box[0]) {
      assert n[0] == box[0];
      SpaceIsLost(w, n);
    } else {
      GmailFormIsStable(w, box);
    }
  }

  // A text that starts with a space is not a form.
  lemma SpaceIsLost(w: World, n: Text)
    requires IdnaKeepsAscii(w) && Ascii(n) && n != [] && IsSpace(n[0])
    ensures Normalize(w, n).normalized != n
  {
    NormalizeOfClean(w, n);
    FormShrinks(w, Clean(n));
    TrimShorter(n);
    TrimIsIdentityIff(n);
  }

  /** Normalising twice changes nothing, unless the first time uncovered a space. */
  lemma NormalizeIdempotentIff(w: World, raw: Text)
    requires IdnaKeepsAscii(w) && Ascii(raw)
    ensures Normalize(w, Normalize(w, raw).normalized).normalized == Normalize(w, raw).normalized
            <==> !HidesSpace(w, raw)
  {
    var s := Clean(raw);
    NormalizeOfClean(w, raw);
    NormalizeClean(w, s);
    if Splits(s) {
      DomainKept(w, s);
      Rejoined(s);
      if IsGmail(DomainOf(s)) { GmailCase(w, s); }
    }
  }

  // ". a"
  const DOTTED: Text := [46, 32, 97]

  lemma DottedMailbox()
    ensures Mailbox(DOTTED) == [32, 97]
  {
    assert FirstIndex(DOTTED, PLUS) == -1;
    assert DOTTED[1..] == [32, 97];
    RemoveNothing([32, 97], DOT);
  }

  lemma DottedIsClean()
    ensures var s := Join(DOTTED, GMAIL); Clean(s) == s && Ascii(s)
  {
    var s := Join(DOTTED, GMAIL);
    GmailIsPlain();
    LowerByBytes(DOTTED);
    JoinBytes(DOTTED, GMAIL);
    assert s[0] == 46 && s[|s| - 1] == GMAIL[8];
    TrimIsIdentityIff(s);
  }

  /** ". a@gmail.com": the first time deletes the dot, the second the space it uncovered. */
  lemma DottedSpaceIsNotIdempotent(w: World)
    requires IdnaKeepsAscii(w)
    ensures var raw := Join(DOTTED, GMAIL); var once := Normalize(w, raw).normalized;
      && Ascii(raw) && HidesSpace(w, raw)
      && once == Join([32, 97], GMAIL) && Normalize(w, once).normalized != once
  {
    var raw := Join(DOTTED, GMAIL);
    DottedIsClean();
    DottedMailbox();
    GmailIsPlain();
    JoinSplits(DOTTED, GMAIL);
    DomainKept(w, raw);
    NormalizeIdempotentIff(w, raw);
  }

  lemma DomainKept(w: World, s: Text)
    requires IdnaKeepsAscii(w) && Clean(s) == s && Ascii(s) && Splits(s)
    ensures AsciiDomain(w, DomainOf(s)) == DomainOf(s)
  {
    Rejoined(s);
    LowerByBytes(s);
    JoinBytes(LocalOf(s), DomainOf(s));
  }

  lemma TrimShorter(s: Text)
    ensures Trim(s) == s || |Trim(s)| < |s|
  {
    LeftShorter(s);
    RightShorter(TrimLeft(s));
  }

  lemma LeftShorter(s: Text)
    ensures TrimLeft(s) == s || |TrimLeft(s)| < |s|
  {
  }

  lemma RightShorter(s: Text)
    ensures TrimRight(s) == s || |TrimRight(s)| < |s|
  {
  }

  // What stands before the first '+' of a local part.
  predicate BeforePlus(local: Text, p: Text) {
    PLUS !in p && (local == p || (|p| < |local| && local[..|p|] == p && local[|p|] == PLUS))
  }

  lemma MailboxIs(local: Text, p: Text, box: Text)
    requires BeforePlus(local, p)
    ensures box == Mailbox(local) <==> DOT !in box && SameWithout(DOT, p, box)
  {
    if local == p {
      assert FirstIndex(local, PLUS) == -1;
    } else {
      var tail := local[|p| + 1..];
      assert local == p + [PLUS] + tail;
      FirstIndexAt(p, tail, PLUS);
    }
    RemoveIs(p, DOT, box);
  }

  lemma SpelledDomains()
    ensures GMAIL == Spelled("gmail.com") && GOOGLEMAIL == Spelled("googlemail.com")
  {
  }

  lemma CleanIs(before: Text, core: Text, after: Text, text: Text)
    requires Blank(before) && Blank(after) && Bare(core) && Folded(core, text)
    ensures Clean(before + core + after) == text
  {
    TrimIs(before, core, after);
    LowerIs(core, text);
  }

  // The form of a text already split at its last '@'.
  lemma SplitFormIs(w: World, local: Text, domain: Text, p: Text, box: Text)
    requires AT !in domain && local != [] && domain != []
    requires BeforePlus(local, p) && DOT !in box && SameWithout(DOT, p, box)
    ensures var text, d := Join(local, domain), AsciiDomain(w, domain);
      && Splits(text) && LocalOf(text) == local && DomainOf(text) == domain
      && FormOf(local, d) == if d == GMAIL || d == GOOGLEMAIL then Form(Join(box, GMAIL), box, GMAIL)
                             else Form(Join(local, d), local, d)
  {
    JoinSplits(local, domain);
    MailboxIs(local, p, box);
  }

  /** What the normal form is, byte by byte: blanks around the address are dropped, capitals made
      small, the domain converted, and for "gmail.com" and "googlemail.com" the local part is cut
      at its first '+' and freed of its dots. */
  lemma NormalFormIs(w: World, raw: Text, before: Text, core: Text, after: Text, local: Text, domain: Text,
                     p: Text, box: Text)
    requires raw == before + core + after && Blank(before) && Blank(after) && Bare(core)
    requires Folded(core, local + Spelled("@") + domain) && AT !in domain && local != [] && domain != []
    requires BeforePlus(local, p) && DOT !in box && SameWithout(DOT, p, box)
    ensures var d := if w.toASCII(domain).Some? then w.toASCII(domain).value else domain;
      Normalize(w, raw) ==
        if d == Spelled("gmail.com") || d == Spelled("googlemail.com")
        then Form(box + Spelled("@") + Spelled("gmail.com"), box, Spelled("gmail.com"))
        else Form(local + Spelled("@") + d, local, d)
  {
    Separators();
    SpelledDomains();
    CleanIs(before, core, after, Join(local, domain));
    SplitFormIs(w, local, domain, p, box);
  }

  // Visible ASCII without capitals, and without '@' and '+' as well.
  predicate Tidy(s: Text) { forall i :: 0 <= i < |s| ==> 33 <= s[i] <= 126 && !('A' as byte <= s[i] <= 'Z' as byte) }

  predicate Plain(s: Text) { Tidy(s) && '@' as byte !in s && '+' as byte !in s }

  lemma TidyIsClean(s: Text)
    requires Tidy(s)
    ensures Clean(s) == s
  {
    TrimIsIdentityIff(s);
    assert forall i :: 0 <= i < |s| ==> Lower(s)[i] == s[i];
  }

  lemma GmailIsTidy()
    ensures Tidy(GMAIL)
  {
  }

  // A Gmail address of tidy parts.
  lemma TidyGmail(w: World, local: Text, p: Text)
    requires Tidy(local) && local != [] && BeforePlus(local, p)
    requires w.toASCII(GMAIL) == None || w.toASCII(GMAIL) == Some(GMAIL)
    ensures Normalize(w, Join(local, GMAIL)) == Form(Join(Remove(p, DOT), GMAIL), Remove(p, DOT), GMAIL)
  {
    GmailIsPlain();
    GmailIsTidy();
    TidyIsClean(Join(local, GMAIL));
    RemoveIs(p, DOT, Remove(p, DOT));
    SplitFormIs(w, local, GMAIL, p, Remove(p, DOT));
  }

  lemma {:induction false} RemoveDot(a: Text, b: Text)
    ensures Remove(a + [DOT] + b, DOT) == Remove(a + b, DOT)
    decreases |a|
  {
    if a == [] {
      assert a + [DOT] + b == [DOT] + b && a + b == b;
    } else {
      assert (a + [DOT] + b)[1..] == a[1..] + [DOT] + b && (a + b)[1..] == a[1..] + b;
      RemoveDot(a[1..], b);
    }
  }

  lemma AtGmail(local: Text)
    ensures local + Spelled("@gmail.com") == Join(local, GMAIL)
  {
    var at := Spelled("@gmail.com");
    assert at == [AT] + GMAIL;
    assert local + at == local + [AT] + GMAIL;
  }

  lemma PlainParts(a: Text, b: Text)
    requires Plain(a) && Plain(b)
    ensures Plain(a + b) && Plain(a + [DOT] + b)
  {
  }

  lemma PlainGmail(w: World, p: Text)
    requires Plain(p) && p != [] && (w.toASCII(GMAIL) == None || w.toASCII(GMAIL) == Some(GMAIL))
    ensures Normalize(w, Join(p, GMAIL)) == Form(Join(Remove(p, DOT), GMAIL), Remove(p, DOT), GMAIL)
  {
    TidyGmail(w, p, p);
  }

  lemma GmailDot(w: World, a: Text, b: Text)
    requires Plain(a) && Plain(b) && a + b != []
    requires w.toASCII(GMAIL) == None || w.toASCII(GMAIL) == Some(GMAIL)
    ensures Normalize(w, Join(a + [DOT] + b, GMAIL)) == Normalize(w, Join(a + b, GMAIL))
    ensures DOT !in a + b ==> Normalize(w, Join(a + b, GMAIL)) == Form(Join(a + b, GMAIL), a + b, GMAIL)
  {
    PlainParts(a, b);
    PlainGmail(w, a + b);
    PlainGmail(w, a + [DOT] + b);
    RemoveDot(a, b);
    if DOT !in a + b { RemoveNothing(a + b, DOT); }
  }

  lemma TaggedIsTidy(p: Text, tag: Text)
    requires Plain(p) && Tidy(tag)
    ensures var local := p + [PLUS] + tag; Tidy(local) && local != [] && BeforePlus(local, p)
  {
    assert (p + [PLUS] + tag)[..|p|] == p;
  }

  lemma GmailTag(w: World, p: Text, tag: Text)
    requires Plain(p) && Tidy(tag) && p != []
    requires w.toASCII(GMAIL) == None || w.toASCII(GMAIL) == Some(GMAIL)
    ensures Normalize(w, Join(p + [PLUS] + tag, GMAIL)) == Normalize(w, Join(p, GMAIL))
  {
    TaggedIsTidy(p, tag);
    PlainGmail(w, p);
    TidyGmail(w, p + [PLUS] + tag, p);
  }

  /** For Gmail a dot anywhere in the local part changes nothing, nor does anything from a '+' on;
      and without either the address is its own normal form. */
  lemma GmailDotsAndTags(w: World, a: Text, b: Text, tag: Text)
    requires Plain(a) && Plain(b) && Tidy(tag) && a + b != []
    requires w.toASCII(Spelled("gmail.com")) == None || w.toASCII(Spelled("gmail.com")) == Some(Spelled("gmail.com"))
    ensures var gmail := Spelled("@gmail.com"); var n := Normalize(w, a + b + gmail);
      && Normalize(w, a + Spelled(".") + b + gmail) == n
      && Normalize(w, a + b + Spelled("+") + tag + gmail) == n
      && (DOT !in a + b ==> n == Form(a + b + gmail, a + b, Spelled("gmail.com")))
  {
    Separators();
    SpelledDomains();
    AtGmail(a + b);
    AtGmail(a + Spelled(".") + b);
    AtGmail(a + b + Spelled("+") + tag);
    GmailDot(w, a, b);
    GmailTag(w, a + b, tag);
  }

  // Nothing on one side of the last '@', or no '@' at all.
  predicate Unsplit(text: Text) {
    || AT !in text
    || (text[0] == AT && AT !in text[1..])
    || text[|text| - 1] == AT
  }

  lemma UnsplitIs(text: Text)
    ensures Unsplit(text) <==> !Splits(text)
  {
  }

  /** A text that does not have something on both sides of an '@' is only trimmed and made small. */
  lemma NoFormIs(w: World, raw: Text, before: Text, core: Text, after: Text, text: Text)
    requires raw == before + core + after && Blank(before) && Blank(after)
    requires (core == [] ==> before == []) && (core != [] ==> Bare(core)) && Folded(core, text) && Unsplit(text)
    ensures Normalize(w, raw) == Form(text, [], [])
  {
    TrimIs(before, core, after);
    LowerIs(core, text);
    UnsplitIs(text);
  }

  /** Two Gmail or Googlemail addresses get one form exactly when their local parts, up to the
      first '+', are the same but for dots. */
  lemma GmailFormsAgreeIff(w: World, x: Text, y: Text, p: Text, q: Text)
    requires GmailAddress(w, x) && GmailAddress(w, y)
    requires BeforePlus(LocalOf(Clean(x)), p) && BeforePlus(LocalOf(Clean(y)), q)
    ensures Normalize(w, x).normalized == Normalize(w, y).normalized <==> SameWithout(DOT, p, q)
  {
    var l, m := LocalOf(Clean(x)), LocalOf(Clean(y));
    GmailIsPlain();
    JoinInjective(Mailbox(l), GMAIL, Mailbox(m), GMAIL);
    RemoveAgrees(p, q, DOT);
    RemoveIs(p, DOT, Remove(p, DOT));
    RemoveIs(q, DOT, Remove(q, DOT));
    MailboxIs(l, p, Remove(p, DOT));
    MailboxIs(m, q, Remove(q, DOT));
  }

  lemma JoinInjective(l1: Text, d1: Text, l2: Text, d2: Text)
    requires AT !in d1 && AT !in d2
    ensures Join(l1, d1) == Join(l2, d2) <==> l1 == l2 && d1 == d2
  {
    if Join(l1, d1) == Join(l2, d2) {
      LastIndexAt(l1, d1, AT);
      LastIndexAt(l2, d2, AT);
      assert Join(l1, d1)[..|l1|] == l1 && Join(l2, d2)[..|l2|] == l2;
      assert Join(l1, d1)[|l1| + 1..] == d1 && Join(l2, d2)[|l2| + 1..] == d2;
    }
  }

  /** A Gmail address and any other address never share a form. */
  lemma GmailFormIsOnlyGmail(w: World, x: Text, y: Text)
    requires IdnaKeepsAscii(w) && Ascii(x) && Ascii(y)
    requires GmailAddress(w, x) && Splits(Clean(y)) && !GmailAddress(w, y)
    ensures Normalize(w, x).normalized != Normalize(w, y).normalized
  {
    var s := Clean(y);
    NormalizeOfClean(w, y);
    DomainKept(w, s);
    Rejoined(s);
    GmailIsPlain();
    JoinInjective(Mailbox(LocalOf(Clean(x))), GMAIL, LocalOf(s), DomainOf(s));
  }

  // ---------- syntax ----------

  predicate Letter(c: byte) { 65 <= c <= 90 || 97 <= c <= 122 }

  predicate Digit(c: byte) { 48 <= c <= 57 }

  // [A-Za-z0-9._%+-]
  predicate LocalByte(c: byte) { Letter(c) || Digit(c) || c == DOT || c == 95 || c == 37 || c == PLUS || c == 45 }

  // [A-Za-z0-9.-]
  predicate DomainByte(c: byte) { Letter(c) || Digit(c) || c == DOT || c == 45 }

  // The fast-path pattern, matched from its two separators.
  predicate FastPath(s: Text) {
    var at := FirstIndex(s, AT);
    at > 0 && (forall x :: x in s[..at] ==> LocalByte(x)) && FastDomain(s[at + 1..])
  }

  predicate FastDomain(domain: Text) {
    var dot := LastIndex(domain, DOT);
    dot > 0 &&
    var host, tld := domain[..dot], domain[dot + 1..];
    && (forall x :: x in host ==> DomainByte(x))
    && (forall x :: x in tld ==> Letter(x)) && 2 <= |tld| <= 63
  }

  // [A-Za-z]
  predicate Alphabetic(s: Text) {
    forall x :: x in s ==> 'A' <= x as char <= 'Z' || 'a' <= x as char <= 'z'
  }

  // [A-Za-z0-9] and the extra characters
  predicate Alphanumeric(s: Text, extra: string) {
    forall x :: x in s ==>
      'A' <= x as char <= 'Z' || 'a' <= x as char <= 'z' || '0' <= x as char <= '9' || x as char in extra
  }

  // local@host.tld, as the pattern reads.
  predicate Pattern(s: Text, local: Text, host: Text, tld: Text) {
    && s == local + Spelled("@") + host + Spelled(".") + tld
    && local != [] && Alphanumeric(local, "._%+-")
    && host != [] && Alphanumeric(host, ".-")
    && 2 <= |tld| <= 63 && Alphabetic(tld)
  }

  lemma ClassesAre(local: Text, host: Text, tld: Text)
    ensures Alphanumeric(local, "._%+-") <==> forall x :: x in local ==> LocalByte(x)
    ensures Alphanumeric(host, ".-") <==> forall x :: x in host ==> DomainByte(x)
    ensures Alphabetic(tld) <==> forall x :: x in tld ==> Letter(x)
  {
    OneClass(local);
    OneClass(host);
    OneClass(tld);
  }

  lemma OneClass(s: Text)
    ensures forall x :: x in s ==> (LocalByte(x) <==> Alphanumeric([x], "._%+-"))
    ensures forall x :: x in s ==> (DomainByte(x) <==> Alphanumeric([x], ".-"))
  {
    forall x | x in s ensures LocalByte(x) <==> Alphanumeric([x], "._%+-") { assert x in [x]; }
    forall x | x in s ensures DomainByte(x) <==> Alphanumeric([x], ".-") { assert x in [x]; }
  }

  /** The matcher accepts exactly what the pattern describes. */
  lemma FastPathIff(s: Text)
    ensures FastPath(s) <==> exists local, host, tld :: Pattern(s, local, host, tld)
  {
    Separators();
    if FastPath(s) {
      var at := FirstIndex(s, AT);
      var domain := s[at + 1..];
      var dot := LastIndex(domain, DOT);
      ClassesAre(s[..at], domain[..dot], domain[dot + 1..]);
      assert domain == domain[..dot] + [DOT] + domain[dot + 1..];
      assert s == s[..at] + [AT] + domain[..dot] + [DOT] + domain[dot + 1..];
      assert Pattern(s, s[..at], domain[..dot], domain[dot + 1..]);
    }
    if exists local, host, tld :: Pattern(s, local, host, tld) {
      var local, host, tld :| Pattern(s, local, host, tld);
      PatternMatches(s, local, host, tld);
    }
  }

  lemma FirstIndexAt(front: Text, back: Text, c: byte)
    requires c !in front
    ensures FirstIndex(front + [c] + back, c) == |front|
  {
    var s := front + [c] + back;
    var i := FirstIndex(s, c);
    assert s[|front|] == c && c in s;
    assert i >= 0 && s[i] == c;
    assert forall k :: 0 <= k < |front| ==> s[k] == front[k];
    assert forall k :: 0 <= k < i ==> s[k] == s[..i][k];
  }

  lemma DomainMatches(host: Text, tld: Text)
    requires host != [] && (forall x :: x in host ==> DomainByte(x))
    requires 2 <= |tld| <= 63 && (forall x :: x in tld ==> Letter(x))
    ensures AT !in host + [DOT] + tld && FastDomain(host + [DOT] + tld)
  {
    var domain := host + [DOT] + tld;
    assert AT !in host && AT !in tld && DOT !in tld;
    LastIndexAt(host, tld, DOT);
    assert domain[..|host|] == host && domain[|host| + 1..] == tld;
  }

  lemma PatternMatches(s: Text, local: Text, host: Text, tld: Text)
    requires Pattern(s, local, host, tld)
    ensures FastPath(s)
    ensures Splits(s) && LocalOf(s) == local && DomainOf(s) == host + [DOT] + tld
  {
    Separators();
    ClassesAre(local, host, tld);
    assert s == Join(local, host + [DOT] + tld);
    JoinMatches(local, host, tld);
  }

  lemma JoinMatches(local: Text, host: Text, tld: Text)
    requires local != [] && (forall x :: x in local ==> LocalByte(x))
    requires host != [] && (forall x :: x in host ==> DomainByte(x))
    requires 2 <= |tld| <= 63 && (forall x :: x in tld ==> Letter(x))
    ensures var s := Join(local, host + [DOT] + tld);
      FastPath(s) && Splits(s) && LocalOf(s) == local && DomainOf(s) == host + [DOT] + tld
  {
    var domain := host + [DOT] + tld;
    var s := Join(local, domain);
    DomainMatches(host, tld);
    assert AT !in local;
    FirstIndexAt(local, domain, AT);
    JoinSplits(local, domain);
    assert s[..|local|] == local && s[|local| + 1..] == domain;
  }

  const MAX_LOCAL: nat := 64
  const MAX_DOMAIN: nat := 253
  const MAX_OVERALL: nat := 320

  predicate DotsOk(local: Text) {
    && (local != [] ==> local[0] != DOT && local[|local| - 1] != DOT)
    && (forall i :: 0 <= i < |local| - 1 ==> !(local[i] == DOT && local[i + 1] == DOT))
  }

  // checkParts
  predicate PartsOk(addr: Text) {
    Splits(addr) && |LocalOf(addr)| <= MAX_LOCAL && |DomainOf(addr)| <= MAX_DOMAIN
    && DOT in DomainOf(addr) && DotsOk(LocalOf(addr))
  }

  datatype Fault = BadSyntax | LongLocal | LongDomain | NoDot

  // The first complaint of checkParts, if any.
  function PartsFault(addr: Text): Option<Fault> {
    if !Splits(addr) then Some(BadSyntax)
    else if |LocalOf(addr)| > MAX_LOCAL then Some(LongLocal)
    else if |DomainOf(addr)| > MAX_DOMAIN then Some(LongDomain)
    else if DOT !in DomainOf(addr) then Some(NoDot)
    else if !DotsOk(LocalOf(addr)) then Some(BadSyntax)
    else None
  }

  lemma PartsFaultIff(addr: Text)
    ensures PartsFault(addr) == None <==> PartsOk(addr)
  {
  }

  // A dot at either end, or two in a row.
  predicate DotsMisplaced(local: Text) {
    || (local != [] && ([local[0]] == Spelled(".") || [local[|local| - 1]] == Spelled(".")))
    || exists i :: 0 <= i < |local| - 1 && [local[i], local[i + 1]] == Spelled("..")
  }

  lemma DotsAre(local: Text)
    ensures DotsOk(local) <==> !DotsMisplaced(local)
  {
    Separators();
    assert Spelled("..") == [DOT, DOT] && Spelled(".") == [DOT];
    forall i | 0 <= i < |local| - 1
      ensures [local[i], local[i + 1]] == Spelled("..") <==> local[i] == DOT && local[i + 1] == DOT
    {
      assert [local[i], local[i + 1]][0] == local[i] && [local[i], local[i + 1]][1] == local[i + 1];
    }
  }

  /** Which complaint an address draws: at most 64 bytes before the '@' and 253 after it, a dot in
      the domain, no dot at either end of the local part nor two in a row, checked in that order. */
  lemma PartsFaultIs(local: Text, domain: Text)
    requires AT !in domain
    ensures PartsFault(local + Spelled("@") + domain) ==
      if local == [] || domain == [] then Some(BadSyntax)
      else if |local| > 64 then Some(LongLocal)
      else if |domain| > 253 then Some(LongDomain)
      else if Spelled(".")[0] !in domain then Some(NoDot)
      else if DotsMisplaced(local) then Some(BadSyntax) else None
  {
    Separators();
    JoinSplits(local, domain);
    DotsAre(local);
  }

  lemma NoAtIsBadSyntax(addr: Text)
    ensures AT !in addr ==> PartsFault(addr) == Some(BadSyntax)
  {
  }

  // The address whose parts Syntax checks: the text itself on the fast path, else what the
  // parser extracts from it.
  function CandidateOf(w: World, s: Text): Option<Text> {
    if FastPath(s) then Some(s)
    else match w.parseAddress(s) case None => None case Some(a) => Some(Lower(a))
  }

  /** The fast path keeps the text; otherwise the parser's address counts, with capitals made
      small. */
  lemma CandidateIs(w: World, s: Text, addr: Text)
    ensures CandidateOf(w, s) == Some(addr) <==>
            if exists local, host, tld :: Pattern(s, local, host, tld) then addr == s
            else w.parseAddress(s).Some? && Folded(w.parseAddress(s).value, addr)
  {
    FastPathIff(s);
    if w.parseAddress(s).Some? { LowerIs(w.parseAddress(s).value, addr); }
  }

  function Candidate(w: World, raw: Text): Option<Text> {
    var s := Normalize(w, raw).normalized;
    if s == [] || |s| > MAX_OVERALL then None else CandidateOf(w, s)
  }

  predicate Accepted(w: World, raw: Text) {
    Candidate(w, raw).Some? && PartsOk(Candidate(w, raw).value)
  }

  // Parts that Normalize left empty are taken from the address.
  function FilledIn(f: Form, addr: Text): Form
    requires Splits(addr)
  {
    Form(f.normalized, if f.local == [] then LocalOf(addr) else f.local,
         if f.domain == [] then DomainOf(addr) else f.domain)
  }

  // The fields of an accepted e-mail after Normalize and Syntax.
  function AcceptedForm(w: World, raw: Text): Form
    requires Accepted(w, raw)
  {
    FilledIn(Normalize(w, raw), Candidate(w, raw).value).(normalized := Candidate(w, raw).value)
  }

  /** On the fast path the three fields agree: normalized is local@domain, and it is the
      normal form itself. */
  lemma FastPathFieldsAgree(w: World, raw: Text)
    requires IdnaKeepsAscii(w) && Ascii(raw)
    ensures Accepted(w, raw) && FastPath(Normalize(w, raw).normalized) ==>
      var f := AcceptedForm(w, raw);
      f == Normalize(w, raw) && f.normalized == Join(f.local, f.domain) && f.local != [] && f.domain != []
  {
    var n, s := Normalize(w, raw), Clean(raw);
    if Accepted(w, raw) && FastPath(n.normalized) {
      FastPathSplits(n.normalized);
      NormalizeOfClean(w, raw);
      NormalizeClean(w, s);
      GmailIsPlain();
      if Splits(s) {
        Rejoined(s);
        JoinSplits(n.local, n.domain);
      }
    }
  }

  lemma FastPathSplits(s: Text)
    requires FastPath(s)
    ensures Splits(s)
  {
    FastPathIff(s);
    var local, host, tld :| Pattern(s, local, host, tld);
    PatternMatches(s, local, host, tld);
  }

  // A split address against two parts, the empty ones taken from the address itself.
  lemma PartsAgree(local: Text, domain: Text, addr: Text)
    requires Splits(addr)
    ensures addr == Join(if local == [] then LocalOf(addr) else local, if domain == [] then DomainOf(addr) else domain)
      <==> if local != [] && domain != [] then addr == Join(local, domain)
           else (local == [] || local == LocalOf(addr)) && (domain == [] || domain == DomainOf(addr))
  {
    Rejoined(addr);
    var at := |LocalOf(addr)|;
    if local == [] && domain != [] {
      assert Join(LocalOf(addr), domain)[at + 1..] == domain;
    } else if local != [] && domain == [] {
      assert Join(local, DomainOf(addr))[..|local|] == local;
      assert |Join(local, DomainOf(addr))| == |local| + 1 + |DomainOf(addr)|;
    }
  }

  lemma FormIsJoined(w: World, raw: Text)
    ensures var n := Normalize(w, raw); n.local != [] && n.domain != [] ==> n.normalized == Join(n.local, n.domain)
  {
  }

  /** Otherwise they agree exactly when the parser gives back the normal form itself, or Normalize
      left the parts to it (a part it did not leave must then be the parser's). */
  lemma FieldsAgreeIff(w: World, raw: Text)
    requires Accepted(w, raw)
    ensures var n, f, addr := Normalize(w, raw), AcceptedForm(w, raw), Candidate(w, raw).value;
      f.normalized == Join(f.local, f.domain)
      <==> if n.local != [] && n.domain != [] then addr == n.normalized
           else (n.local == [] || n.local == LocalOf(addr)) && (n.domain == [] || n.domain == DomainOf(addr))
  {
    var n := Normalize(w, raw);
    FormIsJoined(w, raw);
    PartsAgree(n.local, n.domain, Candidate(w, raw).value);
  }

  // "b <a@b.cd>"
  const DISPLAY_NAME: Text := [98, 32, 60, 97, 64, 98, 46, 99, 100, 62]
  // "a@b.cd"
  const BARE: Text := [97, 64, 98, 46, 99, 100]

  /** With a display name they do not: the parser returns the bare address, but local part and
      domain keep the brackets. */
  lemma DisplayNameFieldsDisagree(w: World)
    requires w.toASCII(DISPLAY_NAME[5..]) == None && w.parseAddress(DISPLAY_NAME) == Some(BARE)
    ensures Accepted(w, DISPLAY_NAME)
    ensures var f := AcceptedForm(w, DISPLAY_NAME);
      f.normalized == BARE && f.local == DISPLAY_NAME[..4] && f.domain == DISPLAY_NAME[5..]
  {
    var s := DISPLAY_NAME;
    DisplayNameForm(w);
    BareIsFine();
    DisplayNameIsNotFast();
  }

  lemma DisplayNameIsNotFast()
    ensures |DISPLAY_NAME| == 10 && !FastPath(DISPLAY_NAME)
  {
    var s := DISPLAY_NAME;
    assert s == s[..4] + [AT] + s[5..];
    FirstIndexAt(s[..4], s[5..], AT);
    assert s[..4][1] == 32 && 32 in s[..4];
  }

  lemma DisplayNameForm(w: World)
    requires w.toASCII(DISPLAY_NAME[5..]) == None
    ensures Normalize(w, DISPLAY_NAME) == Form(DISPLAY_NAME, DISPLAY_NAME[..4], DISPLAY_NAME[5..])
  {
    var s := DISPLAY_NAME;
    LowerByBytes(s);
    TrimIsIdentityIff(s);
    assert s == Join(s[..4], s[5..]);
    JoinSplits(s[..4], s[5..]);
    assert |s[5..]| == 5;
  }

  lemma BareIsFine()
    ensures PartsOk(BARE) && Lower(BARE) == BARE
  {
    LowerByBytes(BARE);
    assert BARE == Join(BARE[..1], BARE[2..]);
    JoinSplits(BARE[..1], BARE[2..]);
    assert BARE[2..][1] == DOT;
  }
}
