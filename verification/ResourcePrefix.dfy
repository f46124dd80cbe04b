/** The product prefix that names resources, annotations and device UUIDs. */
module ResourcePrefix {
  import opened GoStrings
  import opened Kube

  const DEFAULT_PREFIX := "hcu"

  const LOWER := "abcdefghijklmnopqrstuvwxyz"
  const UPPER := "ABCDEFGHIJKLMNOPQRSTUVWXYZ"

  function LowerChar(c: char): char {
    if 'A' <= c <= 'Z' then (c as int + 32) as char else c
  }

  function UpperChar(c: char): char {
    if 'a' <= c <= 'z' then (c as int - 32) as char else c
  }

  /** Letters keep their place in the alphabet, everything else stays. */
  lemma CasesOfLetters(c: char)
    ensures forall i :: 0 <= i < 26 ==> LowerChar(UPPER[i]) == LOWER[i] && UpperChar(LOWER[i]) == UPPER[i]
    ensures c !in UPPER ==> LowerChar(c) == c
    ensures c !in LOWER ==> UpperChar(c) == c
  {
    assert 'A' <= c <= 'Z' ==> UPPER[c as int - 'A' as int] == c;
    assert 'a' <= c <= 'z' ==> LOWER[c as int - 'a' as int] == c;
  }

  function ToLower(s: string): string {
    seq(|s|, i requires 0 <= i < |s| => LowerChar(s[i]))
  }

  predicate EqualFold(a: string, b: string) {
    ToLower(a) == ToLower(b)
  }

  function ToUpper(s: string): string {
    seq(|s|, i requires 0 <= i < |s| => UpperChar(s[i]))
  }

  predicate IsSpace(c: char) {
    c == ' ' || c == '\t' || c == '\n' || c == '\r' || c as int == 11 || c as int == 12
  }

  lemma BlanksSpelledOut(c: char)
    ensures IsSpace(c) <==> c in " \t\n\r" || c == 11 as char || c == 12 as char
  {
  }

  function TrimSpace(s: string): string
    decreases |s|
  {
    if s != "" && IsSpace(s[0]) then TrimSpace(s[1..])
    else if s != "" && IsSpace(s[|s| - 1]) then TrimSpace(s[..|s| - 1])
    else s
  }

  /** Only blanks go, only at the ends, and all of them. */
  lemma {:induction false} TrimSpaceExactly(s: string) returns (before: string, after: string)
    ensures s == before + TrimSpace(s) + after
    ensures (forall c :: c in before ==> IsSpace(c)) && (forall c :: c in after ==> IsSpace(c))
    ensures var t := TrimSpace(s); t != "" ==> !IsSpace(t[0]) && !IsSpace(t[|t| - 1])
    decreases |s|
  {
    hide IsSpace;
    if s != "" && IsSpace(s[0]) {
      before, after := TrimSpaceExactly(s[1..]);
      before := [s[0]] + before;
    } else if s != "" && IsSpace(s[|s| - 1]) {
      before, after := TrimSpaceExactly(s[..|s| - 1]);
      after := after + [s[|s| - 1]];
      assert s == s[..|s| - 1] + [s[|s| - 1]];
    } else {
      before, after := "", "";
    }
  }

  function DeviceIDPrefix(prefix: string): string {
    ToUpper(prefix)
  }

  function ResourceNameMem(prefix: string): string {
    prefix + "mem"
  }

  function FormatDeviceUUID(idPrefix: string, serial: string): string {
    idPrefix + "-" + serial
  }

  function DevicesToAllocateKey(prefix: string): string {
    "hami.io/" + prefix + "-devices-to-allocate"
  }

  function DevicesAllocatedKey(prefix: string): string {
    "hami.io/" + prefix + "-devices-allocated"
  }

  function HandshakeKey(prefix: string): string {
    "hami.io/node-handshake-" + prefix
  }

  function RegisterKey(prefix: string): string {
    "hami.io/node-" + prefix + "-register"
  }

  function HygonRegisterKey(prefix: string): string {
    "hygon.com/node-" + prefix + "-register"
  }

  /** What a configured prefix stands for: never empty, and its upper-case form shows in every UUID. */
  predicate ValidPrefix(prefix: string) {
    Contains(prefix, "cu")
  }

  /** The package variables that follow the prefix. */
  class PrefixConfig {
    var resourcePrefix: string
    var handshakeAnnosString: string
    var registerAnnos: string
    var hygonRegisterAnnos: string
    var inRequestDevices: map<string, string>
    var supportDevices: map<string, string>
    var handshakeAnnos: map<string, string>

    /** All names are built from one and the same prefix. */
    ghost predicate Follows(prefix: string)
      reads this
    {
      && handshakeAnnosString == "hami.io/node-handshake-" + prefix
      && registerAnnos == "hami.io/node-" + prefix + "-register"
      && hygonRegisterAnnos == "hygon.com/node-" + prefix + "-register"
      && inRequestDevices == map["HCU" := "hami.io/" + prefix + "-devices-to-allocate"]
      && supportDevices == map["HCU" := "hami.io/" + prefix + "-devices-allocated"]
      && handshakeAnnos == map["HCU" := "hami.io/node-handshake-" + prefix]
    }

    ghost predicate Valid()
      reads this
    {
      ValidPrefix(resourcePrefix) && Follows(resourcePrefix)
    }

    constructor ()
      ensures Valid() && resourcePrefix == DEFAULT_PREFIX
    {
      resourcePrefix := DEFAULT_PREFIX;
      inRequestDevices, supportDevices, handshakeAnnos := map[], map[], map[];
      new;
      ApplyResourcePrefix(DEFAULT_PREFIX);
      assert OccursAt(DEFAULT_PREFIX, "cu", 1);
      IndexIsFirst(DEFAULT_PREFIX, "cu", 1);
    }

    method ApplyResourcePrefix(prefix: string)
      requires inRequestDevices.Keys <= {"HCU"} && supportDevices.Keys <= {"HCU"} && handshakeAnnos.Keys <= {"HCU"}
      modifies this`handshakeAnnosString, this`registerAnnos, this`hygonRegisterAnnos
      modifies this`inRequestDevices, this`supportDevices, this`handshakeAnnos
      ensures Follows(prefix)
    {
      hide HandshakeKey, RegisterKey, HygonRegisterKey, DevicesToAllocateKey, DevicesAllocatedKey;
      OnlyOneKey(inRequestDevices, DevicesToAllocateKey(prefix));
      OnlyOneKey(supportDevices, DevicesAllocatedKey(prefix));
      OnlyOneKey(handshakeAnnos, HandshakeKey(prefix));
      handshakeAnnosString := HandshakeKey(prefix);
      registerAnnos := RegisterKey(prefix);
      hygonRegisterAnnos := HygonRegisterKey(prefix);
      inRequestDevices := inRequestDevices["HCU" := DevicesToAllocateKey(prefix)];
      supportDevices := supportDevices["HCU" := DevicesAllocatedKey(prefix)];
      handshakeAnnos := handshakeAnnos["HCU" := handshakeAnnosString];
      KeysSpelledOut(prefix);
    }

    static lemma KeysSpelledOut(prefix: string)
      ensures HandshakeKey(prefix) == "hami.io/node-handshake-" + prefix
      ensures RegisterKey(prefix) == "hami.io/node-" + prefix + "-register"
      ensures HygonRegisterKey(prefix) == "hygon.com/node-" + prefix + "-register"
      ensures DevicesToAllocateKey(prefix) == "hami.io/" + prefix + "-devices-to-allocate"
      ensures DevicesAllocatedKey(prefix) == "hami.io/" + prefix + "-devices-allocated"
      ensures ResourceNameMem(prefix) == prefix + "mem"
    {
    }

    static lemma OnlyOneKey(names: map<string, string>, name: string)
      requires names.Keys <= {"HCU"}
      ensures names["HCU" := name] == map["HCU" := name]
    {
    }

    /** A prefix without "cu" is refused and changes nothing; a blank one means the default. */
    method InitResourcePrefix(prefix: string) returns (r: Result<()>)
      requires Valid()
      modifies this
      ensures Valid()
      ensures var wanted := ToLower(TrimSpace(prefix));
              var chosen := if wanted == "" then "hcu" else wanted;
              && (r.Ok? <==> exists k :: OccursAt(chosen, "cu", k))
              && resourcePrefix == if r.Ok? then chosen else old(resourcePrefix)
    {
      hide ToLower, TrimSpace, OccursAt;
      var p := ToLower(TrimSpace(prefix));
      if p == "" {
        p := DEFAULT_PREFIX;
      }
      ContainsExactly(p, "cu");
      if !Contains(p, "cu") {
        return Err(InvalidPrefix);
      }
      resourcePrefix := p;
      ApplyResourcePrefix(p);
      return Ok(());
    }
  }

  /** The names that belong to a product called "*cu". */
  lemma NamesOfStarPrefix()
    ensures DeviceIDPrefix("*cu") == "*CU" && ResourceNameMem("*cu") == "*cumem"
    ensures FormatDeviceUUID(DeviceIDPrefix("*cu"), "ABC") == "*CU-ABC"
    ensures ToLower("HCU") == "hcu"
  {
  }

  lemma PrefixShowsInUUIDs(prefix: string, serial: string)
    requires ValidPrefix(prefix)
    ensures var id := DeviceIDPrefix(prefix);
            && Contains(id, "CU") && 'C' in id
            && Contains(FormatDeviceUUID(id, serial), id)
  {
    var id := DeviceIDPrefix(prefix);
    var i := Index(prefix, "cu");
    assert prefix[i..i + 2] == "cu";
    assert prefix[i] == prefix[i..i + 2][0] && prefix[i + 1] == prefix[i..i + 2][1];
    assert id[i..i + 2] == "CU";
    IndexIsFirst(id, "CU", i);
    assert id[i] == 'C';
    var uuid := FormatDeviceUUID(id, serial);
    assert uuid[0..|id|] == id;
    IndexIsFirst(uuid, id, 0);
  }

  // ---------------------------------------------------------------- reading a UUID back

  /** The token `%s` reads: blanks are skipped, but neither a newline nor the end of the text. */
  function ScanToken(s: string): Option<string> {
    if s == "" || s[0] == '\n' then None
    else if IsSpace(s[0]) then ScanToken(s[1..])
    else Some(UntilSpace(s))
  }

  function UntilSpace(s: string): string {
    if s == "" || IsSpace(s[0]) then "" else [s[0]] + UntilSpace(s[1..])
  }

  /** Scanning a UUID with the format "PREFIX-%s". */
  function ScanSerial(idPrefix: string, uuid: string): Option<string> {
    var head := idPrefix + "-";
    if HasPrefix(uuid, head) then ScanToken(uuid[|head|..]) else None
  }

  /**
    Exactly which texts scan: the prefix and a '-', blanks other than newlines, and then at least
    one character that is no blank; what is read goes up to the next blank.
   */
  lemma ScanSerialExactly(idPrefix: string, uuid: string, serial: string)
    ensures ScanSerial(idPrefix, uuid) == Some(serial) <==>
              exists blanks, rest ::
                && uuid == idPrefix + "-" + blanks + serial + rest
                && IsToken(blanks, serial, rest)
  {
    hide IsToken;
    var head := idPrefix + "-";
    if ScanSerial(idPrefix, uuid) == Some(serial) {
      var blanks, rest := TokenFound(uuid[|head|..], serial);
      assert uuid == head + uuid[|head|..];
      assert uuid == idPrefix + "-" + blanks + serial + rest;
    }
    if blanks, rest :| uuid == idPrefix + "-" + blanks + serial + rest && IsToken(blanks, serial, rest) {
      assert uuid[|head|..] == blanks + serial + rest && uuid[..|head|] == head;
      TokenRead(blanks, serial, rest);
    }
  }

  predicate IsToken(blanks: string, token: string, rest: string) {
    && (forall c :: c in blanks ==> IsSpace(c) && c != '\n')
    && token != "" && (forall c :: c in token ==> !IsSpace(c))
    && (rest != "" ==> IsSpace(rest[0]))
  }

  lemma {:induction false} TokenFound(s: string, token: string) returns (blanks: string, rest: string)
    requires ScanToken(s) == Some(token)
    ensures s == blanks + token + rest && IsToken(blanks, token, rest)
  {
    hide IsSpace;
    if IsSpace(s[0]) {
      blanks, rest := TokenFound(s[1..], token);
      blanks := [s[0]] + blanks;
    } else {
      blanks := "";
      rest := RestAfter(s);
      assert token[0] == s[0];
    }
  }

  lemma {:induction false} RestAfter(s: string) returns (rest: string)
    ensures s == UntilSpace(s) + rest && (rest != "" ==> IsSpace(rest[0]))
    ensures forall c :: c in UntilSpace(s) ==> !IsSpace(c)
  {
    hide IsSpace;
    rest := s;
    if s != "" && !IsSpace(s[0]) {
      rest := RestAfter(s[1..]);
    }
  }

  lemma {:induction false} TokenRead(blanks: string, token: string, rest: string)
    requires IsToken(blanks, token, rest)
    ensures ScanToken(blanks + token + rest) == Some(token)
    decreases |blanks|
  {
    hide IsSpace;
    var s := blanks + token + rest;
    if blanks != "" {
      assert s[0] == blanks[0] && blanks[0] in blanks && s[1..] == blanks[1..] + token + rest;
      TokenRead(blanks[1..], token, rest);
    } else {
      assert s == token + rest && s[0] == token[0] && token[0] in token;
      assert !IsSpace(s[0]) && s[0] != '\n' by {
        NewlineIsSpace();
      }
      UntilRead(token, rest);
    }
  }

  lemma NewlineIsSpace()
    ensures IsSpace('\n')
  {
  }

  lemma {:induction false} UntilRead(token: string, rest: string)
    requires (forall c :: c in token ==> !IsSpace(c)) && (rest != "" ==> IsSpace(rest[0]))
    ensures UntilSpace(token + rest) == token
  {
    hide IsSpace;
    if token != "" {
      assert (token + rest)[1..] == token[1..] + rest && token[0] in token;
      UntilRead(token[1..], rest);
    } else {
      assert token + rest == rest;
    }
  }

  lemma {:induction false} TokenWithoutSpace(s: string)
    requires forall c :: c in s ==> !IsSpace(c)
    ensures UntilSpace(s) == s
  {
    if s != "" {
      TokenWithoutSpace(s[1..]);
    }
  }

  /** A formatted UUID scans back to its serial. */
  lemma UUIDRoundTrip(idPrefix: string, serial: string)
    requires serial != "" && forall c :: c in serial ==> !IsSpace(c)
    ensures ScanSerial(idPrefix, FormatDeviceUUID(idPrefix, serial)) == Some(serial)
  {
    TokenWithoutSpace(serial);
    assert FormatDeviceUUID(idPrefix, serial)[|idPrefix + "-"|..] == serial;
    assert serial[0] in serial;
  }
}
