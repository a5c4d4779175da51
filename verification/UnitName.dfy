/** Recovering a desktop id from the last component of a process's cgroup path. */
module UnitName {
  import opened Basics

  predicate IsDigit(c: char) {
    '0' <= c <= '9'
  }

  predicate IsHex(c: char) {
    IsDigit(c) || 'a' <= c <= 'f' || 'A' <= c <= 'F'
  }

  /** The value of a hex digit is its place among the sixteen, in either case. */
  function HexValue(c: char): (n: nat)
    requires IsHex(c)
    ensures n < 16 && (c == "0123456789abcdef"[n] || c == "0123456789ABCDEF"[n])
  {
    if IsDigit(c) then (c - '0') as nat
    else if 'a' <= c <= 'f' then (c - 'a') as nat + 10
    else (c - 'A') as nat + 10
  }

  function HexByte(hi: char, lo: char): (c: char)
    requires IsHex(hi) && IsHex(lo)
    ensures c as int / 16 == HexValue(hi) && c as int % 16 == HexValue(lo)
  {
    (16 * HexValue(hi) + HexValue(lo)) as char
  }

  /** What toUInt makes of two characters in base 16, and which characters isDigit takes for digits. Both
      take more than hex digits and 0 to 9, such as a blank, a sign or a digit of another script; which is
      left open, and nothing below depends on it. */
  datatype Chars = Chars(code: (char, char) -> Option<char>, digit: char -> bool)

  ghost predicate Sensible(chars: Chars) {
    && (forall hi, lo :: IsHex(hi) && IsHex(lo) ==> chars.code(hi, lo) == Some(HexByte(hi, lo)))
    && (forall c :: IsDigit(c) ==> chars.digit(c))
    && !chars.digit('-')
  }

  /** s begins with a backslash, an x and two characters that are read as a code. */
  predicate AtEscape(chars: Chars, s: string) {
    |s| >= 4 && s[0] == '\\' && s[1] == 'x' && chars.code(s[2], s[3]).Some?
  }

  function Unescape(chars: Chars, s: string): string {
    if s == "" then ""
    else if AtEscape(chars, s) then [chars.code(s[2], s[3]).value] + Unescape(chars, s[4..])
    else [s[0]] + Unescape(chars, s[1..])
  }

  /** s begins with a backslash, an x and two hex digits. */
  predicate AtHexEscape(s: string) {
    |s| >= 4 && s[0] == '\\' && s[1] == 'x' && IsHex(s[2]) && IsHex(s[3])
  }

  predicate HasMark(s: string) {
    exists i :: 0 <= i < |s| - 1 && s[i] == '\\' && s[i + 1] == 'x'
  }

  /** A backslash, an x and two characters that are read as a code stand at i. */
  predicate EscapeAt(chars: Chars, s: string, i: int) {
    0 <= i && i + 3 < |s| && s[i] == '\\' && s[i + 1] == 'x' && chars.code(s[i + 2], s[i + 3]).Some?
  }

  /** Where nothing can be read as an escape, nothing is changed: a mark cut short by the end of the text,
      or followed by what is no code, stays as it is. */
  lemma {:induction false} NothingToDecode(chars: Chars, s: string)
    requires forall i :: !EscapeAt(chars, s, i)
    ensures Unescape(chars, s) == s
  {
    if s != "" {
      assert !EscapeAt(chars, s, 0);
      forall i ensures !EscapeAt(chars, s[1..], i) {
        assert !EscapeAt(chars, s, i + 1);
      }
      NothingToDecode(chars, s[1..]);
    }
  }

  /** The first escape becomes the one character it is the code of, and what follows is decoded likewise. */
  lemma {:induction false} DecodesFirst(chars: Chars, front: string, hi: char, lo: char, rest: string)
    requires '\\' !in front && chars.code(hi, lo).Some?
    ensures Unescape(chars, front + ['\\', 'x', hi, lo] + rest)
         == front + [chars.code(hi, lo).value] + Unescape(chars, rest)
  {
    var s := front + ['\\', 'x', hi, lo] + rest;
    if front == "" {
      assert s[4..] == rest;
    } else {
      assert s[1..] == front[1..] + ['\\', 'x', hi, lo] + rest;
      DecodesFirst(chars, front[1..], hi, lo, rest);
      assert front == [front[0]] + front[1..];
    }
  }

  /** The fast path: without a mark there is nothing to decode. */
  lemma {:induction false} NoMarkNoChange(chars: Chars, s: string)
    requires !HasMark(s)
    ensures Unescape(chars, s) == s
  {
    NothingToDecode(chars, s);
  }

  lemma {:induction false} Onwards(out: string, c: char, rest: string)
    ensures out + ([c] + rest) == out + [c] + rest
  {
  }

  method UnescapeSystemd(chars: Chars, text: string) returns (out: string)
    ensures out == Unescape(chars, text)
  {
    if !HasMark(text) {
      NoMarkNoChange(chars, text);
      return text;
    }
    out := "";
    var i := 0;
    while i < |text|
      invariant 0 <= i <= |text|
      invariant out + Unescape(chars, text[i..]) == Unescape(chars, text)
    {
      if text[i] == '\\' && i + 3 < |text| && text[i + 1] == 'x' && chars.code(text[i + 2], text[i + 3]).Some? {
        var code := chars.code(text[i + 2], text[i + 3]).value;
        assert AtEscape(chars, text[i..]) && text[i..][4..] == text[i + 4..];
        Onwards(out, code, Unescape(chars, text[i + 4..]));
        out := out + [code];
        i := i + 4;
      } else {
        assert !AtEscape(chars, text[i..]) && text[i..][1..] == text[i + 1..];
        Onwards(out, text[i], Unescape(chars, text[i + 1..]));
        out := out + [text[i]];
        i := i + 1;
      }
    }
  }

  predicate IsAllDigits(chars: Chars, s: string) {
    s != "" && forall i :: 0 <= i < |s| ==> chars.digit(s[i])
  }

  /** Index of the first c, or -1. */
  function IndexOf(s: string, c: char): (i: int)
    ensures -1 <= i < |s|
    ensures i >= 0 ==> s[i] == c
    ensures forall j :: 0 <= j < (if i >= 0 then i else |s|) ==> s[j] != c
  {
    if s == "" then -1
    else if s[0] == c then 0
    else
      var rest := IndexOf(s[1..], c);
      assert forall j :: 1 <= j < |s| ==> s[j] == s[1..][j - 1];
      if rest < 0 then -1 else rest + 1
  }

  /** Index of the last c, or -1. */
  function LastIndexOf(s: string, c: char): (i: int)
    ensures -1 <= i < |s|
    ensures i >= 0 ==> s[i] == c
    ensures forall j :: i < j < |s| ==> s[j] != c
  {
    if s == "" then -1
    else if s[|s| - 1] == c then |s| - 1
    else LastIndexOf(s[..|s| - 1], c)
  }

  datatype Identity = Identity(desktopId: string, unit: string)

  const Anonymous := Identity("", "")

  /** The launching pid that systemd appends to a scope's name is not part of the id. */
  function StripLaunchPid(chars: Chars, base: string): string {
    var dash := LastIndexOf(base, '-');
    if dash > 0 && IsAllDigits(chars, base[dash + 1..]) then base[..dash] else base
  }

  function StripInstance(base: string): string {
    var at := IndexOf(base, '@');
    if at >= 0 then base[..at] else base
  }

  function ParseLeaf(chars: Chars, leaf: string): Identity {
    if EndsWith(leaf, ".scope") then
      var base := leaf[..|leaf| - 6];
      if StartsWith(base, "app-") then Identity(Unescape(chars, StripLaunchPid(chars, base[4..])), "")
      else if StartsWith(base, "docker-") || StartsWith(base, "libpod-") || StartsWith(base, "crio-")
      then Identity("", base)
      else Anonymous
    else if EndsWith(leaf, ".service") then
      var base := StripInstance(leaf[..|leaf| - 8]);
      if StartsWith(base, "app-") then Identity(Unescape(chars, base[4..]), "")
      else Identity("", Unescape(chars, base))
    else Anonymous
  }

  method ParseCgroupIdentity(chars: Chars, leaf: string) returns (desktopId: string, unit: string)
    ensures Identity(desktopId, unit) == ParseLeaf(chars, leaf)
  {
    desktopId, unit := "", "";
    if EndsWith(leaf, ".scope") {
      var base := leaf[..|leaf| - 6];
      if StartsWith(base, "app-") {
        base := base[4..];
        var dash := LastIndexOf(base, '-');
        if dash > 0 && IsAllDigits(chars, base[dash + 1..]) {
          base := base[..dash];
        }
        desktopId := UnescapeSystemd(chars, base);
      } else if StartsWith(base, "docker-") || StartsWith(base, "libpod-") || StartsWith(base, "crio-") {
        unit := base;
      }
      return;
    }
    if EndsWith(leaf, ".service") {
      var base := leaf[..|leaf| - 8];
      var at := IndexOf(base, '@');
      if at >= 0 {
        base := base[..at];
      }
      if StartsWith(base, "app-") {
        desktopId := UnescapeSystemd(chars, base[4..]);
      } else {
        unit := UnescapeSystemd(chars, base);
      }
    }
  }

  // ---------------------------------------------------------------------------------------------
  // Inverse of the escaping of systemd.unit(5), "String Escaping for Inclusion in Unit Names"
  // ---------------------------------------------------------------------------------------------

  /** text is a way of writing id in which each character stands for itself or is written as an
      escape, and a backslash always is. Which other characters are escaped is left open. */
  ghost predicate Encodes(id: string, text: string) {
    if id == "" then text == ""
    else
      || (id[0] != '\\' && text != "" && text[0] == id[0] && Encodes(id[1..], text[1..]))
      || (AtHexEscape(text) && HexByte(text[2], text[3]) == id[0] && Encodes(id[1..], text[4..]))
  }

  lemma {:induction false} UnescapeInverts(chars: Chars, id: string, text: string)
    requires Sensible(chars) && Encodes(id, text)
    ensures Unescape(chars, text) == id
  {
    if id != "" {
      if id[0] != '\\' && text != "" && text[0] == id[0] && Encodes(id[1..], text[1..]) {
        UnescapeInverts(chars, id[1..], text[1..]);
        assert id == [id[0]] + id[1..];
      } else {
        UnescapeInverts(chars, id[1..], text[4..]);
        assert id == [id[0]] + id[1..];
      }
    }
  }

  function HexDigit(n: nat): (c: char)
    requires n < 16
    ensures IsHex(c) && HexValue(c) == n
  {
    if n < 10 then '0' + n as char else 'a' + (n - 10) as char
  }

  predicate SingleBytes(id: string) {
    forall i :: 0 <= i < |id| ==> id[i] as int < 256
  }

  /** Escaping of an id of single bytes: what is not plain is written as a backslash, an x and its two
      hex digits. */
  function Escape(id: string, plain: char -> bool): string
    requires SingleBytes(id)
  {
    if id == "" then ""
    else
      (if plain(id[0]) then [id[0]]
       else ['\\', 'x', HexDigit(id[0] as int / 16), HexDigit(id[0] as int % 16)])
      + Escape(id[1..], plain)
  }

  /** Any choice of plain characters will do that does not make the backslash one. */
  lemma {:induction false} EscapeEncodes(id: string, plain: char -> bool)
    requires SingleBytes(id) && !plain('\\')
    ensures Encodes(id, Escape(id, plain))
    ensures !plain('@') ==> '@' !in Escape(id, plain)
  {
    if id != "" {
      EscapeEncodes(id[1..], plain);
      var text, rest := Escape(id, plain), Escape(id[1..], plain);
      if plain(id[0]) {
        assert text[1..] == rest;
      } else {
        assert text[4..] == rest;
        assert HexByte(text[2], text[3]) == id[0];
      }
    }
  }

  /** The names systemd makes give the id back: of a scope with any launch pid, and of a service
      instance if the at sign is escaped too. */
  lemma {:induction false} EscapedRoundTrip(
    chars: Chars, id: string, plain: char -> bool, pid: string, instance: string)
    requires Sensible(chars) && id != "" && SingleBytes(id) && !plain('\\') && IsAllDigits(chars, pid)
    ensures ParseLeaf(chars, "app-" + Escape(id, plain) + "-" + pid + ".scope") == Identity(id, "")
    ensures !plain('@') ==>
              ParseLeaf(chars, "app-" + Escape(id, plain) + "@" + instance + ".service") == Identity(id, "")
  {
    EscapeEncodes(id, plain);
    ScopeRoundTrip(chars, id, Escape(id, plain), pid);
    ServiceRoundTrip(chars, id, Escape(id, plain), instance);
  }

  /** A character that plays no part in an escape splits an encoding at a character of the id. */
  lemma {:induction false} EncodesSplit(id: string, text: string, p: nat) returns (n: nat)
    requires Encodes(id, text) && p < |text|
    requires text[p] != '\\' && text[p] != 'x' && !IsHex(text[p])
    ensures n < |id| && Encodes(id[..n], text[..p])
  {
    if p == 0 {
      n := 0;
    } else if id[0] != '\\' && text[0] == id[0] && Encodes(id[1..], text[1..]) {
      var m := EncodesSplit(id[1..], text[1..], p - 1);
      n := m + 1;
      assert id[..n][1..] == id[1..][..m] && text[..p][1..] == text[1..][..p - 1];
    } else {
      assert p != 1 && p != 2 && p != 3;
      var m := EncodesSplit(id[1..], text[4..], p - 4);
      n := m + 1;
      assert id[..n][1..] == id[1..][..m] && text[..p][4..] == text[4..][..p - 4];
      assert AtHexEscape(text[..p]);
    }
  }

  lemma {:induction false} LastDash(chars: Chars, text: string, digits: string)
    requires Sensible(chars) && IsAllDigits(chars, digits)
    ensures LastIndexOf(text + "-" + digits, '-') == |text|
  {
    var s := text + "-" + digits;
    assert s[|text|] == '-';
    assert forall j :: |text| < j < |s| ==> s[j] == digits[j - |text| - 1];
  }

  lemma {:induction false} FirstAt(text: string, rest: string)
    ensures IndexOf(text + "@" + rest, '@') == if '@' in text then IndexOf(text, '@') else |text|
  {
    var s := text + "@" + rest;
    assert s[|text|] == '@';
    assert forall j :: 0 <= j < |text| ==> s[j] == text[j];
    assert '@' in text <==> IndexOf(text, '@') >= 0;
  }

  lemma {:induction false} ParseScope(chars: Chars, body: string)
    ensures ParseLeaf(chars, "app-" + body + ".scope") == Identity(Unescape(chars, StripLaunchPid(chars, body)), "")
  {
    var leaf := "app-" + body + ".scope";
    assert leaf[|leaf| - 6..] == ".scope";
    var base := leaf[..|leaf| - 6];
    assert base == "app-" + body;
    assert base[..4] == "app-" && base[4..] == body;
  }

  lemma {:induction false} NotScope(front: string)
    ensures !EndsWith(front + ".service", ".scope")
  {
    var leaf := front + ".service";
    assert leaf[|leaf| - 6..] == "ervice";
    assert "ervice"[0] != ".scope"[0];
  }

  lemma {:induction false} ShiftedIndex(body: string)
    requires IndexOf(body, '@') >= 0
    ensures IndexOf("app-" + body, '@') == 4 + IndexOf(body, '@')
  {
    var base, k := "app-" + body, IndexOf(body, '@');
    assert base[4 + k] == '@';
    assert forall j :: 0 <= j < 4 ==> base[j] == "app-"[j];
    assert forall j :: 4 <= j < 4 + k ==> base[j] == body[j - 4];
  }

  lemma {:induction false} ParseService(chars: Chars, body: string)
    requires IndexOf(body, '@') >= 0
    ensures ParseLeaf(chars, "app-" + body + ".service") == Identity(Unescape(chars, body[..IndexOf(body, '@')]), "")
  {
    var leaf, base, k := "app-" + body + ".service", "app-" + body, IndexOf(body, '@');
    assert leaf == base + ".service";
    NotScope(base);
    assert leaf[|leaf| - 8..] == ".service" && leaf[..|leaf| - 8] == base;
    ShiftedIndex(body);
    assert base[..4 + k] == "app-" + body[..k];
    assert base[..4 + k][..4] == "app-" && base[..4 + k][4..] == body[..k];
  }

  /** Whatever pid launched it and whatever the id ends in, a scope's name gives the id back. */
  lemma {:induction false} ScopeRoundTrip(chars: Chars, id: string, text: string, pid: string)
    requires Sensible(chars) && id != "" && Encodes(id, text) && IsAllDigits(chars, pid)
    ensures ParseLeaf(chars, "app-" + text + "-" + pid + ".scope") == Identity(id, "")
  {
    var body := text + "-" + pid;
    assert "app-" + text + "-" + pid + ".scope" == "app-" + body + ".scope";
    ParseScope(chars, body);
    LastDash(chars, text, pid);
    assert body[|text| + 1..] == pid && body[..|text|] == text;
    UnescapeInverts(chars, id, text);
  }

  /** From its dash number k on the text looks like a launch pid, and there is something before it. */
  ghost predicate EndsInPid(chars: Chars, text: string, k: int) {
    && 0 < k < |text| - 1 && text[k] == '-'
    && forall j :: k < j < |text| ==> chars.digit(text[j])
  }

  /** A scope without a launch pid gives the id back exactly when the name does not happen to end
      in a dash and digits. */
  lemma {:induction false} ScopeWithoutPid(chars: Chars, id: string, text: string)
    requires Sensible(chars) && Encodes(id, text)
    ensures ParseLeaf(chars, "app-" + text + ".scope").desktopId == id
       <==> !exists k :: EndsInPid(chars, text, k)
  {
    ParseScope(chars, text);
    UnescapeInverts(chars, id, text);
    var dash := LastIndexOf(text, '-');
    if k :| EndsInPid(chars, text, k) {
      assert k == dash;
      assert IsAllDigits(chars, text[dash + 1..]);
    }
    if dash > 0 && IsAllDigits(chars, text[dash + 1..]) {
      assert forall j :: dash < j < |text| ==> text[j] == text[dash + 1..][j - dash - 1];
      assert EndsInPid(chars, text, dash);
    }
    if dash > 0 {
      var n := EncodesSplit(id, text, dash);
      UnescapeInverts(chars, id[..n], text[..dash]);
    }
  }

  /** Any other scope: a container is known by its scope, and nothing else tells anything. */
  lemma {:induction false} OtherScopes(chars: Chars, base: string)
    requires !StartsWith(base, "app-")
    ensures ParseLeaf(chars, base + ".scope")
         == if StartsWith(base, "docker-") || StartsWith(base, "libpod-") || StartsWith(base, "crio-")
            then Identity("", base) else Identity("", "")
  {
    var leaf := base + ".scope";
    assert leaf[|leaf| - 6..] == ".scope" && leaf[..|leaf| - 6] == base;
  }

  /** A service gives its id back, with an instance or without: as a desktop id if it is named as an
      application, and as a unit if it is not. */
  lemma {:induction false} ServiceNames(chars: Chars, id: string, text: string, instance: string)
    requires Sensible(chars) && Encodes(id, text) && '@' !in text
    ensures ParseLeaf(chars, "app-" + text + ".service") == Identity(id, "")
    ensures !StartsWith(text, "app-") ==>
              && ParseLeaf(chars, text + ".service") == Identity("", id)
              && ParseLeaf(chars, text + "@" + instance + ".service") == Identity("", id)
  {
    hide ParseLeaf, Unescape, Encodes, StripInstance;
    UnescapeInverts(chars, id, text);
    assert ("app-" + text)[..4] == "app-" && ("app-" + text)[4..] == text;
    ServiceBase(chars, "app-" + text);
    ServiceBase(chars, text);
    ServiceBase(chars, text + "@" + instance);
    FirstAt(text, instance);
    assert (text + "@" + instance)[..|text|] == text;
  }

  lemma {:induction false} ServiceBase(chars: Chars, body: string)
    ensures StripInstance(body) == (if '@' in body then body[..IndexOf(body, '@')] else body)
    ensures var base := StripInstance(body);
            && (StartsWith(base, "app-") ==>
                  ParseLeaf(chars, body + ".service") == Identity(Unescape(chars, base[4..]), ""))
            && (!StartsWith(base, "app-") ==>
                  ParseLeaf(chars, body + ".service") == Identity("", Unescape(chars, base)))
  {
    var leaf := body + ".service";
    NotScope(body);
    assert leaf[|leaf| - 8..] == ".service" && leaf[..|leaf| - 8] == body;
    assert '@' in body <==> IndexOf(body, '@') >= 0;
  }

  /** Only scopes and services tell anything, and never both a desktop id and a unit. */
  lemma {:induction false} OnlyScopesAndServices(chars: Chars, leaf: string)
    ensures ParseLeaf(chars, leaf) != Identity("", "") ==>
              exists base: string :: leaf == base + ".scope" || leaf == base + ".service"
    ensures ParseLeaf(chars, leaf).desktopId == "" || ParseLeaf(chars, leaf).unit == ""
  {
    if EndsWith(leaf, ".scope") {
      assert leaf == leaf[..|leaf| - 6] + ".scope";
    }
    if EndsWith(leaf, ".service") {
      assert leaf == leaf[..|leaf| - 8] + ".service";
    }
  }

  /** A service instance gives the id back exactly when the escaped id keeps no at sign; otherwise
      everything from it on is taken for the instance. */
  lemma {:induction false} ServiceRoundTrip(chars: Chars, id: string, text: string, instance: string)
    requires Sensible(chars) && Encodes(id, text)
    ensures ParseLeaf(chars, "app-" + text + "@" + instance + ".service").desktopId == id <==> '@' !in text
    ensures ParseLeaf(chars, "app-" + text + "@" + instance + ".service").unit == ""
  {
    var body := text + "@" + instance;
    assert "app-" + text + "@" + instance + ".service" == "app-" + body + ".service";
    FirstAt(text, instance);
    ParseService(chars, body);
    var at := IndexOf(body, '@');
    assert body[..at] == text[..at];
    if '@' in text {
      var n := EncodesSplit(id, text, at);
      UnescapeInverts(chars, id[..n], text[..at]);
    } else {
      assert text[..at] == text;
      UnescapeInverts(chars, id, text);
    }
  }

  /** An id that needs no escaping: every character but the backslash may stand for itself. */
  lemma {:induction false} PlainEncodes(id: string)
    requires '\\' !in id
    ensures Encodes(id, id)
  {
    if id != "" {
      PlainEncodes(id[1..]);
    }
  }

  /** The scope of foo-1, named without a launch pid, is taken for one of foo. */
  lemma {:induction false} DashedIdIsCut(chars: Chars)
    requires Sensible(chars)
    ensures Encodes("foo-1", "foo-1") && ParseLeaf(chars, "app-foo-1.scope") == Identity("foo", "")
  {
    PlainEncodes("foo-1");
    PlainEncodes("foo");
    assert "app-foo-1.scope" == "app-" + "foo" + "-" + "1" + ".scope";
    ScopeRoundTrip(chars, "foo", "foo", "1");
  }

  /** The service of a@b, with the at sign left as it is, is taken for one of a. */
  lemma {:induction false} AtSignIsCut(chars: Chars)
    requires Sensible(chars)
    ensures Encodes("a@b", "a@b") && ParseLeaf(chars, "app-a@b@1.service").desktopId != "a@b"
  {
    PlainEncodes("a@b");
    assert "a@b"[1] == '@';
    assert "app-a@b@1.service" == "app-" + "a@b" + "@" + "1" + ".service";
    ServiceRoundTrip(chars, "a@b", "a@b", "1");
  }
}
