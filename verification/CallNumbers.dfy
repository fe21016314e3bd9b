/**
 Telephone numbers in a SETUP message: a "number.subaddress" string is written as a number element
 and a subaddress element, and read back from the two.
 */
module CallNumbers {
  import opened Basics
  import opened Q931

  const IE_CALLING_PN: byte := 0x6c
  const IE_CALLING_SUB: byte := 0x6d
  const IE_CALLED_PN: byte := 0x70
  const IE_CALLED_SUB: byte := 0x71

  const CALLING_NR: nat := 22
  const CALLING_SUB: nat := 23
  const CALLED_NR: nat := 24
  const CALLED_SUB: nat := 25

  const DOT: byte := 0x2e

  /** Strings in buffers of 32 octets that end with a zero. */
  const TEXT_LEN: nat := 32

  /** Where the string in a buffer ends: at the first zero. */
  function End(s: seq<byte>): (n: nat)
    ensures n <= |s| && (n < |s| ==> s[n] == 0) && forall k | 0 <= k < n :: s[k] != 0
  {
    if s == [] || s[0] == 0 then 0 else 1 + End(s[1..])
  }

  predicate IsText(s: seq<byte>) {
    |s| == TEXT_LEN && End(s) < TEXT_LEN
  }

  function Text(s: seq<byte>): seq<byte> {
    s[..End(s)]
  }

  /** Where the subaddress is split off: at the first dot; the length if there is none. */
  function Split(s: seq<byte>): (n: nat)
    ensures n <= |s| && (n < |s| ==> s[n] == DOT) && forall k | 0 <= k < n :: s[k] != DOT
  {
    if s == [] || s[0] == DOT then 0 else 1 + Split(s[1..])
  }

  // ----- writing ----------------------------------------------------------------------------

  /** Octets in front of a calling number: numbering plan, and screening if the plan leaves room. */
  function Header(plan: byte, screen: byte): seq<byte> {
    if plan == 0 then [0x81] else if plan < 0x80 then [plan, screen] else [plan]
  }

  function NumberPart(number: byte, header: seq<byte>, s: seq<byte>): (a: Addition)
    requires |header| + |s| < 256
    ensures Readable(a)
  {
    var octets := header + s[..Split(s)];
    Parts(number, Some([|octets| as byte] + octets))
  }

  function SubPart(sub: byte, s: seq<byte>): (a: Addition)
    requires |s| < 255 && Split(s) < |s|
    ensures Readable(a)
  {
    var octets := [0x80] + s[Split(s) + 1..];
    Parts(sub, Some([|octets| as byte] + octets))
  }

  /** The elements written for a string. */
  function Written(number: byte, sub: byte, header: seq<byte>, s: seq<byte>): (adds: seq<Addition>)
    requires |header| + |s| < 255
    ensures AllReadable(adds)
  {
    if s == [] then []
    else [NumberPart(number, header, s)] + (if Split(s) < |s| then [SubPart(sub, s)] else [])
  }

  // ----- reading ----------------------------------------------------------------------------

  /** The octets of an element, as many as its length says. */
  function Element(m: Message, slot: nat): Option<seq<byte>>
    requires Valid(m) && slot < 32
  {
    var at := m.index[slot];
    if at == 0 || |m.body| < at + 2 || |m.body| < at + 2 + m.body[at + 1] as int then None
    else Some(m.body[at..at + 2 + m.body[at + 1] as int])
  }

  /** How many octets stand in front of a calling number. */
  function CallingHeader(e: seq<byte>): nat {
    if |e| > 2 && e[2] < 0x80 then 2 else 1
  }

  /** What follows the first octets of an element; nothing if there are not that many. */
  function Tail(e: Option<seq<byte>>, n: nat): seq<byte> {
    if e.Some? && |e.value| >= n then e.value[n..] else []
  }

  /** The string put together again: a dot only if a subaddress follows. */
  function Joined(number: seq<byte>, sub: seq<byte>): seq<byte> {
    number + (if sub == [] then [] else [DOT] + sub)
  }

  /** The calling number of an element. */
  function CallingNumber(e: Option<seq<byte>>): seq<byte> {
    Tail(e, if e.Some? then 2 + CallingHeader(e.value) else 0)
  }

  function Calling(m: Message): seq<byte>
    requires Valid(m)
  {
    Joined(CallingNumber(Element(m, CALLING_NR)), Tail(Element(m, CALLING_SUB), 3))
  }

  function Called(m: Message): seq<byte>
    requires Valid(m)
  {
    Joined(Tail(Element(m, CALLED_NR), 3), Tail(Element(m, CALLED_SUB), 3))
  }

  /** Plan and screening of a calling number that is there. */
  function PlanOf(e: seq<byte>): (byte, byte)
    requires |e| >= 3 && (e[2] < 0x80 ==> |e| >= 4)
  {
    (e[2], if e[2] < 0x80 then e[3] else 0)
  }

  // ----- one string -------------------------------------------------------------------------

  /** The string ends with the dot that splits it. */
  predicate EndsWithSplit(s: seq<byte>) {
    s != [] && Split(s) == |s| - 1
  }

  function SubOf(s: seq<byte>): seq<byte> {
    if Split(s) < |s| then s[Split(s) + 1..] else []
  }

  lemma JoinedAt(s: seq<byte>, n: nat)
    requires n < |s| && s[n] == DOT
    ensures s[..n] + ([DOT] + s[n + 1..]) == s
  {
  }

  lemma JoinedWhole(s: seq<byte>)
    requires !EndsWithSplit(s)
    ensures Joined(s[..Split(s)], SubOf(s)) == s
  {
    hide Split;
    var n := Split(s);
    if n == |s| {
      assert s[..n] + [] == s;
    } else {
      JoinedAt(s, n);
      assert |s[n + 1..]| == |s| - n - 1;
    }
  }

  lemma JoinedShort(s: seq<byte>)
    requires EndsWithSplit(s)
    ensures Joined(s[..Split(s)], SubOf(s)) == s[..|s| - 1]
  {
    hide Split;
    var n := Split(s);
    assert s[n + 1..] == [];
    assert s[..n] + [] == s[..n];
  }

  /** Putting the parts of a string together gives it back exactly when no empty subaddress was
      split off; otherwise the dot is lost. */
  lemma JoinedIff(s: seq<byte>)
    ensures Joined(s[..Split(s)], SubOf(s)) == s <==> !EndsWithSplit(s)
    ensures EndsWithSplit(s) ==> Joined(s[..Split(s)], SubOf(s)) == s[..|s| - 1]
  {
    hide Split, Joined, SubOf;
    if EndsWithSplit(s) {
      JoinedShort(s);
      assert |s[..|s| - 1]| < |s|;
    } else {
      JoinedWhole(s);
    }
  }

  // ----- a whole message --------------------------------------------------------------------

  /** None of the additions is for one of the four elements. */
  predicate OtherElements(adds: seq<Addition>)
    requires AllReadable(adds)
  {
    forall k | 0 <= k < |adds| :: Effect(adds[k]).Some? ==> !(CALLING_NR <= Effect(adds[k]).value.0 <= CALLED_SUB)
  }

  lemma {:induction false} LastConcat(a: seq<Addition>, b: seq<Addition>, slot: nat)
    requires AllReadable(a) && AllReadable(b) && AllReadable(a + b)
    ensures Last(a + b, slot) == if Last(b, slot).Some? then Last(b, slot) else Last(a, slot)
    decreases |b|
  {
    hide Effect;
    if b == [] {
      assert a + b == a;
    } else {
      assert (a + b)[..|a + b| - 1] == a + b[..|b| - 1];
      LastConcat(a, b[..|b| - 1], slot);
    }
  }

  lemma {:induction false} LastOther(adds: seq<Addition>, slot: nat)
    requires AllReadable(adds) && OtherElements(adds) && CALLING_NR <= slot <= CALLED_SUB
    ensures Last(adds, slot).None?
    decreases |adds|
  {
    hide Effect;
    if adds != [] {
      LastOther(adds[..|adds| - 1], slot);
    }
  }

  /** Octets of an addition by parts. */
  lemma PartsEffect(kind: byte, octets: seq<byte>, slot: nat)
    requires 0 < |octets| < 256 && kind < 0x80 && SlotOf(kind) == Some(slot)
    ensures Readable(Parts(kind, Some([|octets| as byte] + octets)))
    ensures Effect(Parts(kind, Some([|octets| as byte] + octets))) == Some((slot, [kind, |octets| as byte] + octets))
  {
    hide SlotOf;
    var c := [|octets| as byte] + octets;
    assert c[..c[0] as int + 1] == c;
    assert [kind] + c == [kind, |octets| as byte] + octets;
  }

  /** What was last written for the number and the subaddress of a string. */
  lemma LastWritten(number: byte, sub: byte, header: seq<byte>, s: seq<byte>, n: nat, slot: nat)
    requires number < 0x80 && sub < 0x80 && SlotOf(number) == Some(n) && SlotOf(sub) == Some(n + 1)
    requires header != [] && |header| + |s| < 255
    ensures var adds := Written(number, sub, header, s);
            var octets := header + s[..Split(s)];
            var rest := if Split(s) < |s| then [0x80] + s[Split(s) + 1..] else [];
            && (slot == n ==> Last(adds, slot) == if s == [] then None else Some([number, |octets| as byte] + octets))
            && (slot == n + 1 ==>
                  Last(adds, slot) == if Split(s) == |s| then None else Some([sub, |rest| as byte] + rest))
            && (slot != n && slot != n + 1 ==> Last(adds, slot).None?)
  {
    hide Effect, SlotOf, Split;
    if s != [] {
      var a := NumberPart(number, header, s);
      PartsEffect(number, header + s[..Split(s)], n);
      LastOne(a, slot);
      if Split(s) < |s| {
        var b := SubPart(sub, s);
        PartsEffect(sub, [0x80] + s[Split(s) + 1..], n + 1);
        LastOne(b, slot);
        LastConcat([a], [b], slot);
      } else {
        assert [a] + [] == [a];
      }
    } else {
      assert Split(s) == |s|;
    }
  }

  lemma LastOne(a: Addition, slot: nat)
    requires Readable(a) && AllReadable([a])
    ensures Last([a], slot) == match Effect(a) case Some((s, octets)) => (if s == slot then Some(octets) else None) case None => None
  {
    hide Effect;
    assert [a][..0] == [];
  }

  /** The message i4l sends up: other elements, the calling string, the called string, others. */
  function Numbers(plan: byte, screen: byte, calling: seq<byte>, called: seq<byte>): (adds: seq<Addition>)
    requires |calling| < TEXT_LEN && |called| < TEXT_LEN
    ensures AllReadable(adds)
  {
    Written(IE_CALLING_PN, IE_CALLING_SUB, Header(plan, screen), calling)
    + Written(IE_CALLED_PN, IE_CALLED_SUB, [0x81], called)
  }

  lemma Slots()
    ensures SlotOf(IE_CALLING_PN) == Some(CALLING_NR) && SlotOf(IE_CALLING_SUB) == Some(CALLING_SUB)
    ensures SlotOf(IE_CALLED_PN) == Some(CALLED_NR) && SlotOf(IE_CALLED_SUB) == Some(CALLED_SUB)
  {
  }

  /** Reading an element gives what was last added for it. */
  lemma ElementIsLast(kind: byte, first: byte, adds: seq<Addition>, slot: nat)
    requires AllReadable(adds) && slot < 32 && |AddAll(NewMessage(kind, first), adds).body| <= 0x1_0000
    ensures Element(AddAll(NewMessage(kind, first), adds), slot) == Last(adds, slot)
  {
    hide AddAll, Last;
    var m := AddAll(NewMessage(kind, first), adds);
    IndexLocatesLast(kind, first, adds, slot);
    if Last(adds, slot).Some? {
      LastHasType(adds, slot);
      var octets := Last(adds, slot).value;
      var at := m.index[slot];
      assert m.body[at..at + |octets|][1] == octets[1];
    }
  }

  lemma LastInMessage(before: seq<Addition>, numbers: seq<Addition>, after: seq<Addition>, slot: nat)
    requires AllReadable(before) && AllReadable(numbers) && AllReadable(after)
    requires OtherElements(before) && OtherElements(after) && CALLING_NR <= slot <= CALLED_SUB
    ensures Last(before + numbers + after, slot) == Last(numbers, slot)
  {
    hide Last, Effect;
    LastConcat(before + numbers, after, slot);
    LastConcat(before, numbers, slot);
    LastOther(before, slot);
    LastOther(after, slot);
  }

  lemma LastOfNumbers(plan: byte, screen: byte, calling: seq<byte>, called: seq<byte>, slot: nat)
    requires |calling| < TEXT_LEN && |called| < TEXT_LEN && CALLING_NR <= slot <= CALLED_SUB
    ensures Last(Numbers(plan, screen, calling, called), slot) ==
            if slot <= CALLING_SUB then Last(Written(IE_CALLING_PN, IE_CALLING_SUB, Header(plan, screen), calling), slot)
            else Last(Written(IE_CALLED_PN, IE_CALLED_SUB, [0x81], called), slot)
  {
    hide Last, SlotOf, Written;
    Slots();
    var a := Written(IE_CALLING_PN, IE_CALLING_SUB, Header(plan, screen), calling);
    var b := Written(IE_CALLED_PN, IE_CALLED_SUB, [0x81], called);
    LastConcat(a, b, slot);
    LastWritten(IE_CALLING_PN, IE_CALLING_SUB, Header(plan, screen), calling, CALLING_NR, slot);
    LastWritten(IE_CALLED_PN, IE_CALLED_SUB, [0x81], called, CALLED_NR, slot);
  }

  /** The parts of a string as they are read from its two elements. */
  lemma PartsRead(number: byte, sub: byte, header: seq<byte>, s: seq<byte>)
    requires header != [] && |header| + |s| < 255
    ensures var octets := header + s[..Split(s)];
            var rest := if Split(s) < |s| then [0x80] + s[Split(s) + 1..] else [];
            && Tail(Some([number, |octets| as byte] + octets), 2 + |header|) == s[..Split(s)]
            && (Split(s) < |s| ==> Tail(Some([sub, |rest| as byte] + rest), 3) == s[Split(s) + 1..])
  {
    hide Split;
  }

  lemma CallingRead(plan: byte, screen: byte, s: seq<byte>)
    requires |s| < TEXT_LEN
    ensures var header := Header(plan, screen);
            var octets := header + s[..Split(s)];
            var e := [IE_CALLING_PN, |octets| as byte] + octets;
            && CallingHeader(e) == |header|
            && PlanOf(e) == (if plan == 0 then 0x81 else plan, if 0 < plan < 0x80 then screen else 0)
  {
    hide Split;
  }

  /** The message with the numbers among other elements. */
  function Setup(kind: byte, first: byte, before: seq<Addition>, numbers: seq<Addition>, after: seq<Addition>): (m: Message)
    requires AllReadable(before) && AllReadable(numbers) && AllReadable(after)
    ensures Valid(m)
  {
    AddAll(NewMessage(kind, first), before + numbers + after)
  }

  lemma SetupElement(kind: byte, first: byte, before: seq<Addition>, numbers: seq<Addition>, after: seq<Addition>, slot: nat)
    requires AllReadable(before) && AllReadable(numbers) && AllReadable(after)
    requires OtherElements(before) && OtherElements(after) && CALLING_NR <= slot <= CALLED_SUB
    requires |Setup(kind, first, before, numbers, after).body| <= 0x1_0000
    ensures Element(Setup(kind, first, before, numbers, after), slot) == Last(numbers, slot)
  {
    hide AddAll, Last, Element, OtherElements;
    ElementIsLast(kind, first, before + numbers + after, slot);
    LastInMessage(before, numbers, after, slot);
  }

  /** The two elements of the calling string as they are found in the message. */
  lemma CallingElements(m: Message, plan: byte, screen: byte, calling: seq<byte>, called: seq<byte>)
    requires Valid(m) && |calling| < TEXT_LEN && |called| < TEXT_LEN
    requires Element(m, CALLING_NR) == Last(Numbers(plan, screen, calling, called), CALLING_NR)
    requires Element(m, CALLING_SUB) == Last(Numbers(plan, screen, calling, called), CALLING_SUB)
    ensures var octets := Header(plan, screen) + calling[..Split(calling)];
            var rest := if Split(calling) < |calling| then [0x80] + calling[Split(calling) + 1..] else [];
            && Element(m, CALLING_NR) == (if calling == [] then None else Some([IE_CALLING_PN, |octets| as byte] + octets))
            && Element(m, CALLING_SUB) ==
               (if Split(calling) == |calling| then None else Some([IE_CALLING_SUB, |rest| as byte] + rest))
  {
    hide Last, Split, Numbers, Element, SlotOf, Written, Joined;
    Slots();
    var header := Header(plan, screen);
    LastOfNumbers(plan, screen, calling, called, CALLING_NR);
    LastOfNumbers(plan, screen, calling, called, CALLING_SUB);
    LastWritten(IE_CALLING_PN, IE_CALLING_SUB, header, calling, CALLING_NR, CALLING_NR);
    LastWritten(IE_CALLING_PN, IE_CALLING_SUB, header, calling, CALLING_NR, CALLING_SUB);
  }

  /** What the number element of a calling string tells. */
  lemma CallingValue(plan: byte, screen: byte, s: seq<byte>)
    requires |s| < TEXT_LEN
    ensures var octets := Header(plan, screen) + s[..Split(s)];
            var e := [IE_CALLING_PN, |octets| as byte] + octets;
            && CallingNumber(Some(e)) == s[..Split(s)]
            && |e| >= 3 && (e[2] < 0x80 ==> |e| >= 4)
            && PlanOf(e) == (if plan == 0 then 0x81 else plan, if 0 < plan < 0x80 then screen else 0)
  {
    hide Split, Header, PlanOf, CallingHeader, Tail;
    HeaderSize(plan, screen, s);
    PartsRead(IE_CALLING_PN, IE_CALLING_SUB, Header(plan, screen), s);
    CallingRead(plan, screen, s);
  }

  lemma SubValue(sub: byte, s: seq<byte>)
    requires |s| < TEXT_LEN && Split(s) < |s|
    ensures var rest := [0x80] + s[Split(s) + 1..];
            Tail(Some([sub, |rest| as byte] + rest), 3) == SubOf(s)
  {
    hide Split;
    PartsRead(sub, sub, [0x81], s);
  }

  lemma ReadCalling(m: Message, plan: byte, screen: byte, calling: seq<byte>, called: seq<byte>)
    requires Valid(m) && |calling| < TEXT_LEN && |called| < TEXT_LEN
    requires Element(m, CALLING_NR) == Last(Numbers(plan, screen, calling, called), CALLING_NR)
    requires Element(m, CALLING_SUB) == Last(Numbers(plan, screen, calling, called), CALLING_SUB)
    ensures Calling(m) == Joined(calling[..Split(calling)], SubOf(calling))
    ensures calling != [] ==>
              var e := Element(m, CALLING_NR);
              && e.Some? && |e.value| >= 3 && (e.value[2] < 0x80 ==> |e.value| >= 4)
              && PlanOf(e.value) == (if plan == 0 then 0x81 else plan, if 0 < plan < 0x80 then screen else 0)
  {
    hide Last, Split, Numbers, Element, SlotOf, Written, Joined, Header, PlanOf, CallingHeader;
    CallingElements(m, plan, screen, calling, called);
    if calling != [] {
      CallingValue(plan, screen, calling);
    }
    if Split(calling) < |calling| {
      SubValue(IE_CALLING_SUB, calling);
    }
  }

  lemma HeaderSize(plan: byte, screen: byte, s: seq<byte>)
    requires |s| < TEXT_LEN
    ensures var header := Header(plan, screen);
            var octets := header + s[..Split(s)];
            var e := [IE_CALLING_PN, |octets| as byte] + octets;
            && 1 <= |header| <= 2 && |e| >= 3 && (e[2] < 0x80 ==> |e| >= 4)
  {
    hide Split;
  }

  /** The two elements of the called string as they are found in the message. */
  lemma CalledElements(m: Message, plan: byte, screen: byte, calling: seq<byte>, called: seq<byte>)
    requires Valid(m) && |calling| < TEXT_LEN && |called| < TEXT_LEN
    requires Element(m, CALLED_NR) == Last(Numbers(plan, screen, calling, called), CALLED_NR)
    requires Element(m, CALLED_SUB) == Last(Numbers(plan, screen, calling, called), CALLED_SUB)
    ensures var octets := [0x81] + called[..Split(called)];
            var rest := if Split(called) < |called| then [0x80] + called[Split(called) + 1..] else [];
            && Element(m, CALLED_NR) == (if called == [] then None else Some([IE_CALLED_PN, |octets| as byte] + octets))
            && Element(m, CALLED_SUB) ==
               (if Split(called) == |called| then None else Some([IE_CALLED_SUB, |rest| as byte] + rest))
  {
    hide Last, Split, Numbers, Element, SlotOf, Written;
    Slots();
    LastOfNumbers(plan, screen, calling, called, CALLED_NR);
    LastOfNumbers(plan, screen, calling, called, CALLED_SUB);
    LastWritten(IE_CALLED_PN, IE_CALLED_SUB, [0x81], called, CALLED_NR, CALLED_NR);
    LastWritten(IE_CALLED_PN, IE_CALLED_SUB, [0x81], called, CALLED_NR, CALLED_SUB);
  }

  lemma CalledValue(s: seq<byte>)
    requires |s| < TEXT_LEN
    ensures var octets := [0x81] + s[..Split(s)];
            Tail(Some([IE_CALLED_PN, |octets| as byte] + octets), 3) == s[..Split(s)]
  {
    hide Split;
    PartsRead(IE_CALLED_PN, IE_CALLED_SUB, [0x81], s);
  }

  lemma ReadCalled(m: Message, plan: byte, screen: byte, calling: seq<byte>, called: seq<byte>)
    requires Valid(m) && |calling| < TEXT_LEN && |called| < TEXT_LEN
    requires Element(m, CALLED_NR) == Last(Numbers(plan, screen, calling, called), CALLED_NR)
    requires Element(m, CALLED_SUB) == Last(Numbers(plan, screen, calling, called), CALLED_SUB)
    ensures Called(m) == Joined(called[..Split(called)], SubOf(called))
  {
    hide Last, Split, Numbers, Element, Joined;
    CalledElements(m, plan, screen, calling, called);
    if called != [] {
      CalledValue(called);
    }
    if Split(called) < |called| {
      SubValue(IE_CALLED_SUB, called);
    }
  }

  /** Calling and called strings are read back from the message unchanged exactly when the dot that
      splits them is not their last character, which is otherwise lost; plan and screening come back
      with a calling string as far as they were written. */
  lemma NumbersReadBackIff(kind: byte, first: byte, before: seq<Addition>, plan: byte, screen: byte,
                           calling: seq<byte>, called: seq<byte>, after: seq<Addition>)
    requires |calling| < TEXT_LEN && |called| < TEXT_LEN
    requires AllReadable(before) && AllReadable(after) && OtherElements(before) && OtherElements(after)
    requires |Setup(kind, first, before, Numbers(plan, screen, calling, called), after).body| <= 0x1_0000
    ensures var m := Setup(kind, first, before, Numbers(plan, screen, calling, called), after);
            && (Calling(m) == calling <==> !EndsWithSplit(calling))
            && (Called(m) == called <==> !EndsWithSplit(called))
            && (EndsWithSplit(calling) ==> Calling(m) == calling[..|calling| - 1])
            && (EndsWithSplit(called) ==> Called(m) == called[..|called| - 1])
    ensures var e := Element(Setup(kind, first, before, Numbers(plan, screen, calling, called), after), CALLING_NR);
            calling != [] ==>
              && e.Some? && |e.value| >= 3 && (e.value[2] < 0x80 ==> |e.value| >= 4)
              && PlanOf(e.value) == (if plan == 0 then 0x81 else plan, if 0 < plan < 0x80 then screen else 0)
  {
    hide Setup, Last, Split, Numbers, Element, OtherElements;
    var numbers := Numbers(plan, screen, calling, called);
    SetupElement(kind, first, before, numbers, after, CALLING_NR);
    SetupElement(kind, first, before, numbers, after, CALLING_SUB);
    SetupElement(kind, first, before, numbers, after, CALLED_NR);
    SetupElement(kind, first, before, numbers, after, CALLED_SUB);
    var m := Setup(kind, first, before, numbers, after);
    ReadCalling(m, plan, screen, calling, called);
    ReadCalled(m, plan, screen, calling, called);
    JoinedIff(calling);
    JoinedIff(called);
  }

  // ----- writing into a message -------------------------------------------------------------

  lemma AddTwo(m: Message, a: Addition, b: Addition)
    requires Valid(m) && Readable(a) && Readable(b) && AllReadable([a]) && AllReadable([a] + [b])
    ensures AddAll(m, [a]) == Add(m, a)
    ensures AddAll(m, [a] + [b]) == Add(Add(m, a), b)
  {
    hide Add;
    assert [a][..0] == [];
    assert ([a] + [b])[..1] == [a];
  }

  /** Copies text from position j on into tmp from position i on, up to its end or, if asked, up to
      a dot. */
  method CopyText(text: array<byte>, j: nat, tmp: array<byte>, i: nat, stopAtDot: bool) returns (n: nat)
    requires IsText(text[..]) && j <= End(text[..]) && text != tmp
    requires i + End(text[..]) - j <= tmp.Length
    modifies tmp
    ensures var s := Text(text[..])[j..];
            && n == (if stopAtDot then Split(s) else |s|)
            && tmp[..i] == old(tmp[..i]) && tmp[i..i + n] == s[..n]
            && text[..] == old(text[..])
  {
    hide End, Split;
    ghost var all := text[..];
    ghost var s := Text(all)[j..];
    n := 0;
    while text[j + n] != 0 && !(stopAtDot && text[j + n] == DOT)
      invariant n <= |s| && text[..] == all
      invariant tmp[..i] == old(tmp[..i]) && tmp[i..i + n] == s[..n]
      invariant stopAtDot ==> forall k | 0 <= k < n :: s[k] != DOT
      decreases |s| - n
    {
      assert text[j + n] == all[j + n];
      assert n < |s| && s[n] == text[j + n];
      tmp[i + n] := text[j + n];
      assert tmp[..i] == old(tmp[..i]);
      assert tmp[i..i + n + 1] == s[..n + 1];
      n := n + 1;
    }
    assert text[j + n] == all[j + n];
  }

  /** Length, header and the number up to a dot go into the buffer and from there into the message. */
  method WriteNumberPart(msg: L3Message, number: byte, header: seq<byte>, text: array<byte>, tmp: array<byte>)
    returns (n: nat)
    requires msg.Ok() && IsText(text[..]) && 1 <= |header| <= 2 && tmp.Length == 36 && tmp != text
    modifies msg`body, msg.index, tmp
    ensures text[..] == old(text[..]) && n == Split(Text(text[..]))
    ensures msg.Abs() == Add(old(msg.Abs()), NumberPart(number, header, Text(text[..])))
  {
    hide End, Split, Add;
    ghost var s := Text(text[..]);
    var i := 1;
    for k := 0 to |header|
      invariant i == 1 + k && tmp[1..i] == header[..k] && text[..] == old(text[..]) && msg.Abs() == old(msg.Abs())
    {
      tmp[i] := header[k];
      assert tmp[1..i + 1] == header[..k + 1];
      i := i + 1;
    }
    assert s[0..] == s;
    n := CopyText(text, 0, tmp, i, true);
    assert tmp[1..i] == tmp[..i][1..];
    ghost var octets := header + s[..n];
    assert tmp[1..i + n] == tmp[1..i] + tmp[i..i + n] == octets;
    tmp[0] := (i + n - 1) as byte;
    assert tmp[..i + n] == [|octets| as byte] + octets;
    msg.AddIE(number, Some(tmp[..i + n]));
  }

  /** Length, type and the subaddress after the dot at n. */
  method WriteSubPart(msg: L3Message, sub: byte, text: array<byte>, n: nat, tmp: array<byte>)
    requires msg.Ok() && IsText(text[..]) && tmp.Length == 36 && tmp != text
    requires n == Split(Text(text[..])) < |Text(text[..])|
    modifies msg`body, msg.index, tmp
    ensures text[..] == old(text[..])
    ensures msg.Abs() == Add(old(msg.Abs()), SubPart(sub, Text(text[..])))
  {
    hide End, Split, Add;
    ghost var s := Text(text[..]);
    tmp[1] := 0x80;
    var l := CopyText(text, n + 1, tmp, 2, false);
    ghost var octets := [0x80] + s[n + 1..];
    assert tmp[..2][1] == 0x80;
    assert tmp[1..2 + l] == octets;
    tmp[0] := (l + 1) as byte;
    assert tmp[..2 + l] == [|octets| as byte] + octets;
    msg.AddIE(sub, Some(tmp[..2 + l]));
  }

  /** Writes a string into the message: the number up to a dot, then the subaddress after it. */
  method WriteNumber(msg: L3Message, number: byte, sub: byte, header: seq<byte>, text: array<byte>)
    requires msg.Ok() && IsText(text[..]) && 1 <= |header| <= 2
    modifies msg`body, msg.index
    ensures msg.Abs() == AddAll(old(msg.Abs()), Written(number, sub, header, Text(text[..])))
    ensures text[..] == old(text[..])
  {
    hide End, Split, Add, NumberPart, SubPart;
    ghost var s := Text(text[..]);
    if text[0] == 0 {
      assert s == [];
      return;
    }
    assert s != [];
    var tmp := new byte[36](_ => 0);
    var n := WriteNumberPart(msg, number, header, text, tmp);
    ghost var a := NumberPart(number, header, s);
    if text[n] == DOT {
      assert n < |s|;
      WriteSubPart(msg, sub, text, n, tmp);
      AddTwo(old(msg.Abs()), a, SubPart(sub, s));
    } else {
      assert n == |s|;
      AddTwo(old(msg.Abs()), a, a);
      assert [a] + [] == [a];
    }
  }

  // ----- reading from a message -------------------------------------------------------------

  /** Copies l octets of the body from p on into text from position i on. */
  method CopyOut(body: seq<byte>, p: nat, l: nat, text: array<byte>, i: nat)
    requires p + l <= |body| && i + l <= text.Length
    modifies text
    ensures text[..i] == old(text[..i]) && text[i..i + l] == body[p..p + l]
  {
    for k := 0 to l
      invariant text[..i] == old(text[..i]) && text[i..i + k] == body[p..p + k]
    {
      text[i + k] := body[p + k];
      assert text[..i] == old(text[..i]);
      assert text[i..i + k + 1] == text[i..i + k] + [body[p + k]];
    }
  }

  /** The element is complete in the body if the index names it. */
  predicate Complete(m: Message, slot: nat)
    requires Valid(m) && slot < 32
  {
    m.index[slot] != 0 ==> Element(m, slot).Some?
  }

  /** The octets after a header of an element become the start of the text; an element shorter than
      its header has none. */
  method ReadNumberPart(msg: L3Message, slot: nat, skip: nat, text: array<byte>) returns (i: nat)
    requires msg.Ok() && slot < 32 && text.Length == TEXT_LEN && Element(msg.Abs(), slot).Some?
    requires |Element(msg.Abs(), slot).value| < 2 + skip + TEXT_LEN
    modifies text
    ensures msg.index[..] == old(msg.index[..])
    ensures i < TEXT_LEN && text[..i] == Tail(Element(msg.Abs(), slot), 2 + skip)
  {
    var at := msg.index[slot];
    assert at == msg.index[..][slot];
    ghost var e := Element(msg.Abs(), slot);
    if msg.body[at + 1] as int < skip {
      i := 0;
      assert text[..0] == [];
      return;
    }
    i := msg.body[at + 1] as int - skip;
    CopyOut(msg.body, at + 2 + skip, i, text, 0);
    assert text[..i] == text[0..i];
    assert e.value[2 + skip..] == msg.body[at + 2 + skip..at + 2 + skip + i];
  }

  lemma SubTail(m: Message, slot: nat)
    requires Valid(m) && slot < 32 && Element(m, slot).Some?
    ensures m.index[slot] + 2 <= |m.body|
    ensures var at := m.index[slot];
            var l := m.body[at + 1] as int - 1;
            && at + 3 + l <= |m.body|
            && Tail(Element(m, slot), 3) == if l > 0 then m.body[at + 3..at + 3 + l] else []
  {
  }

  /** A dot and l octets of the body follow the first i octets of the text. */
  method AppendSub(body: seq<byte>, p: nat, l: nat, text: array<byte>, i: nat)
    requires p + l <= |body| && i + 1 + l <= text.Length
    modifies text
    ensures text[..i + 1 + l] == old(text[..i]) + ([DOT] + body[p..p + l])
  {
    ghost var number := text[..i];
    text[i] := DOT;
    assert text[..i + 1] == number + [DOT];
    CopyOut(body, p, l, text, i + 1);
    assert text[..i + 1 + l] == text[..i + 1] + text[i + 1..i + 1 + l];
  }

  /** A subaddress follows after a dot. */
  method ReadSubPart(msg: L3Message, slot: nat, text: array<byte>, i: nat) returns (n: nat)
    requires msg.Ok() && slot < 32 && text.Length == TEXT_LEN && Complete(msg.Abs(), slot)
    requires i + |Joined([], Tail(Element(msg.Abs(), slot), 3))| < TEXT_LEN
    modifies text
    ensures msg.index[..] == old(msg.index[..])
    ensures n < TEXT_LEN && text[..n] == Joined(old(text[..i]), Tail(Element(msg.Abs(), slot), 3))
  {
    hide Element, Tail;
    var at := msg.index[slot];
    assert at == msg.index[..][slot];
    n := i;
    ghost var number := text[..i];
    assert number + [] == number;
    if at == 0 {
      NoTail(msg.Abs(), slot);
      return;
    }
    SubTail(msg.Abs(), slot);
    var l := msg.body[at + 1] as int - 1;
    if l > 0 {
      AppendSub(msg.body, at + 3, l, text, i);
      n := i + 1 + l;
    }
  }

  lemma NoTail(m: Message, slot: nat)
    requires Valid(m) && slot < 32 && m.index[slot] == 0
    ensures Tail(Element(m, slot), 3) == []
  {
  }

  /** The octets that are read as the header of a calling number are in the message, though they may
      lie behind an element that is too short. */
  predicate HeaderInBody(m: Message)
    requires Valid(m)
  {
    var at := m.index[CALLING_NR];
    at != 0 ==> at + 2 < |m.body| && (m.body[at + 2] < 0x80 ==> at + 3 < |m.body|)
  }

  /** A calling number that is there has the octets its header takes. */
  predicate HasHeader(e: Option<seq<byte>>) {
    e.Some? && |e.value| >= 3 && (e.value[2] < 0x80 ==> |e.value| >= 4)
  }

  /** The calling string, with plan and screening. */
  method ReadCallingText(msg: L3Message) returns (text: array<byte>, n: nat, plan: byte, screen: byte)
    requires msg.Ok() && Complete(msg.Abs(), CALLING_NR) && Complete(msg.Abs(), CALLING_SUB)
    requires HeaderInBody(msg.Abs()) && |Calling(msg.Abs())| < TEXT_LEN
    ensures fresh(text) && text.Length == TEXT_LEN && n < TEXT_LEN
    ensures text[..n] == Calling(msg.Abs()) && text[n] == 0
    ensures var m := msg.Abs();
            var at := m.index[CALLING_NR];
            at != 0 ==> plan == m.body[at + 2] && screen == if plan < 0x80 then m.body[at + 3] else 0
    ensures var e := Element(msg.Abs(), CALLING_NR); HasHeader(e) ==> (plan, screen) == PlanOf(e.value)
  {
    hide Element;
    text := new byte[TEXT_LEN](_ => 0);
    var i := 0;
    plan, screen := 0, 0;
    var at := msg.index[CALLING_NR];
    assert at == msg.index[..][CALLING_NR];
    ghost var m := msg.Abs();
    if at != 0 {
      ElementAt(m, CALLING_NR);
      plan := msg.body[at + 2];
      var skip := 1;
      if plan < 0x80 {
        screen := msg.body[at + 3];
        skip := 2;
      }
      i := ReadNumberPart(msg, CALLING_NR, skip, text);
    } else {
      NoElement(m, CALLING_NR);
      assert text[..0] == [];
    }
    n := ReadSubPart(msg, CALLING_SUB, text, i);
    ghost var r := text[..n];
    text[n] := 0;
    assert text[..n] == r;
  }

  lemma ElementAt(m: Message, slot: nat)
    requires Valid(m) && slot < 32 && Element(m, slot).Some?
    ensures var at := m.index[slot];
            var e := Element(m, slot).value;
            && at + |e| <= |m.body| && forall k | 0 <= k < |e| :: e[k] == m.body[at + k]
  {
  }

  lemma NoElement(m: Message, slot: nat)
    requires Valid(m) && slot < 32 && m.index[slot] == 0
    ensures Element(m, slot).None?
  {
  }

  /** The called string. */
  method ReadCalledText(msg: L3Message) returns (text: array<byte>, n: nat)
    requires msg.Ok() && Complete(msg.Abs(), CALLED_NR) && Complete(msg.Abs(), CALLED_SUB)
    requires |Called(msg.Abs())| < TEXT_LEN
    ensures fresh(text) && text.Length == TEXT_LEN && n < TEXT_LEN
    ensures text[..n] == Called(msg.Abs()) && text[n] == 0
  {
    hide Element;
    text := new byte[TEXT_LEN](_ => 0);
    var i := 0;
    var at := msg.index[CALLED_NR];
    assert at == msg.index[..][CALLED_NR];
    if at != 0 {
      i := ReadNumberPart(msg, CALLED_NR, 1, text);
    } else {
      NoElement(msg.Abs(), CALLED_NR);
      assert text[..0] == [];
    }
    n := ReadSubPart(msg, CALLED_SUB, text, i);
    ghost var r := text[..n];
    text[n] := 0;
    assert text[..n] == r;
  }
}
