/**
 Attachment ids in object names (app/services/attachment_normalizer.py): an id is cleaned,
 written into a synthetic object name, and read back from it.
 */
module AttachmentIds {
  import opened Wrappers
  import opened Text

  /** `urlparse(ref).path` and the regular expression class `\w`. */
  datatype Library = Library(urlPath: string -> string, wordChar: char -> bool)

  const FOLDER := "pod_attachments"

  // ----- writing

  predicate Safe(c: char) {
    'a' <= c <= 'z' || 'A' <= c <= 'Z' || '0' <= c <= '9' || c == '.' || c == '_' || c == '-'
  }

  predicate AllSafe(s: string) {
    forall k | 0 <= k < |s| :: Safe(s[k])
  }

  function DropUnsafe(s: string): (r: string)
    ensures |r| <= |s|
  {
    if s != "" && !Safe(s[0]) then DropUnsafe(s[1..]) else s
  }

  /** Every run of unsafe characters becomes one underscore. */
  function Collapse(s: string): string
    decreases |s|
  {
    if s == "" then ""
    else if Safe(s[0]) then [s[0]] + Collapse(s[1..])
    else "_" + Collapse(DropUnsafe(s[1..]))
  }

  function OrUnknown(s: string): string {
    if s == "" then "unknown" else s
  }

  function Truncated(s: string): string {
    if |s| <= 180 then s else s[..180]
  }

  /** `_sanitize_path_segment` */
  function SanitizePathSegment(value: Option<string>): string {
    if value.None? || value.value == "" then "unknown"
    else Truncated(OrUnknown(Collapse(Strip(value.value))))
  }

  /** `in_memory_attachment_ref` */
  function InMemoryAttachmentRef(attachmentId: Option<string>, shipmentNumber: Option<string>): string {
    ObjectName(Joined(SanitizePathSegment(attachmentId), ShipToken(shipmentNumber)))
  }

  function ObjectName(middle: string): string {
    FOLDER + "/" + ("pod_" + middle + ".bin")
  }

  function Joined(id: string, ship: string): string {
    id + "_" + ship
  }

  function ShipToken(shipmentNumber: Option<string>): string {
    SanitizePathSegment(OrText(shipmentNumber, "unknown"))
  }

  /** Python's `value or text`. */
  function OrText(value: Option<string>, text: string): Option<string> {
    if value.None? || value.value == "" then Some(text) else value
  }

  // ----- reading

  function StripSlashesLeft(s: string): string {
    if s != "" && s[0] == '/' then StripSlashesLeft(s[1..]) else s
  }

  function StripSlashesRight(s: string): string {
    if s != "" && s[|s| - 1] == '/' then StripSlashesRight(s[..|s| - 1]) else s
  }

  /** `s.rfind(c)` */
  function LastIndex(s: string, c: char): (r: int)
    ensures -1 <= r < |s|
    ensures r >= 0 ==> s[r] == c
    ensures forall k | r < k < |s| :: s[k] != c
  {
    if s == "" then -1
    else if s[|s| - 1] == c then |s| - 1
    else LastIndex(s[..|s| - 1], c)
  }

  predicate EndsWith(s: string, suffix: string) {
    |suffix| <= |s| && s[|s| - |suffix|..] == suffix
  }

  predicate Contains(s: string, text: string) {
    exists k | 0 <= k <= |s| :: text <= s[k..]
  }

  /** `normalize_object_key`; None for its ValueError. */
  function NormalizeObjectKey(key: string): Option<string> {
    var raw := StripSlashesLeft(Strip(key));
    if raw == "" then Some("")
    else if "http://" <= raw || "https://" <= raw || Contains(raw, "://") then None
    else Some(raw)
  }

  /** First place from `p` on where the folder prefix is followed by text up to the last dot at `dot`. */
  function PatternStart(key: string, p: nat, dot: nat): Option<nat>
    requires dot < |key|
    decreases |key| - p
  {
    var prefix := FOLDER + "/pod_";
    if p + |prefix| >= dot then None
    else if key[p..p + |prefix|] == prefix && '.' !in key[p + |prefix|..dot] then Some(p + |prefix|)
    else PatternStart(key, p + 1, dot)
  }

  /** `re.search(r"pod_attachments/pod_([^.]+)\.\w+$", key)` */
  function PatternId(lib: Library, key: string): Option<string> {
    var dot := LastIndex(key, '.');
    if dot < 0 || dot == |key| - 1 || exists k | dot < k < |key| :: !lib.wordChar(key[k]) then None
    else
      var start := PatternStart(key, 0, dot);
      if start.Some? && start.value <= dot then Some(key[start.value..dot]) else None
  }

  /** The id in `rest`, the object name between `pod_` and the extension. */
  function IdInName(rest: string, shipmentHint: Option<string>): Option<string> {
    var suffix := "_" + SanitizePathSegment(shipmentHint);
    if shipmentHint.Some? && shipmentHint.value != "" && EndsWith(rest, suffix) && |rest| > |suffix| then Some(rest[..|rest| - |suffix|])
    else
      var at := LastIndex(rest, '_');
      var id := if at >= 0 then rest[..at] else rest;
      if id == "" then None else Some(id)
  }

  function KeyOfRef(lib: Library, attachmentRef: string): Option<string> {
    var ref := Strip(attachmentRef);
    if "http://" <= ref || "https://" <= ref then Some(StripSlashesLeft(lib.urlPath(ref))) else NormalizeObjectKey(ref)
  }

  function BaseName(key: string): string {
    var trimmed := StripSlashesRight(key);
    trimmed[LastIndex(trimmed, '/') + 1..]
  }

  /** `_extract_attachment_id` */
  function ExtractAttachmentId(lib: Library, attachmentRef: string, shipmentHint: Option<string>): Option<string> {
    var key := KeyOfRef(lib, attachmentRef);
    if key.None? then None
    else
      var base := BaseName(key.value);
      var dot := LastIndex(base, '.');
      if dot < 0 || !("pod_" <= base[..dot]) then PatternId(lib, key.value)
      else IdInName(base[4..dot], shipmentHint)
  }

  // ----- sanitising

  lemma {:induction false} CollapseMeaning(s: string)
    ensures AllSafe(Collapse(s))
    ensures Collapse(s) == s <==> AllSafe(s)
    ensures Collapse(s) == "" <==> s == ""
    decreases |s|
  {
    if s != "" {
      if Safe(s[0]) {
        CollapseMeaning(s[1..]);
        assert s == [s[0]] + s[1..];
      } else {
        CollapseMeaning(DropUnsafe(s[1..]));
        assert Collapse(s)[0] == '_';
      }
    }
  }

  lemma SafeIsTrimmed(s: string)
    requires AllSafe(s)
    ensures Trimmed(s) && Strip(s) == s
  {
    StripTrims(s);
  }

  /** A sanitised token is never empty, is safe, has at most 180 characters, and exactly such tokens are kept as they are. */
  lemma SanitizeMeaning(value: Option<string>)
    ensures var token := SanitizePathSegment(value);
            && 1 <= |token| <= 180 && AllSafe(token)
            && (value == Some(token) <==> value.Some? && 1 <= |value.value| <= 180 && AllSafe(value.value))
  {
    if value.Some? {
      CollapseMeaning(Strip(value.value));
      if AllSafe(value.value) {
        SafeIsTrimmed(value.value);
      }
    }
  }

  lemma SanitizeIsIdempotent(value: Option<string>)
    ensures SanitizePathSegment(Some(SanitizePathSegment(value))) == SanitizePathSegment(value)
  {
    SanitizeMeaning(value);
    SanitizeMeaning(Some(SanitizePathSegment(value)));
  }

  // ----- round trip

  lemma LastIndexIs(s: string, c: char, at: nat)
    requires at < |s| && s[at] == c && forall k | at < k < |s| :: s[k] != c
    ensures LastIndex(s, c) == at
  {
  }

  lemma NoScheme(s: string)
    requires ':' !in s
    ensures !Contains(s, "://")
  {
    forall k | 0 <= k <= |s| ensures !("://" <= s[k..]) {
      assert "://"[0] == ':' && (k < |s| ==> s[k..][0] == s[k] && s[k] in s);
    }
  }

  lemma KeyOfObjectName(lib: Library, middle: string)
    requires AllSafe(middle)
    ensures KeyOfRef(lib, ObjectName(middle)) == Some(ObjectName(middle))
  {
    var name := ObjectName(middle);
    assert name[0] == 'p' && name[|name| - 1] == 'n';
    forall k | 0 <= k < |name| ensures name[k] != ':' {
      assert k >= |FOLDER| + 5 && k - |FOLDER| - 5 < |middle| ==> name[k] == middle[k - |FOLDER| - 5];
    }
    StripTrims(name);
    NoScheme(name);
  }

  lemma BaseOfObjectName(middle: string)
    requires AllSafe(middle)
    ensures BaseName(ObjectName(middle)) == "pod_" + middle + ".bin"
  {
    var name, base := ObjectName(middle), "pod_" + middle + ".bin";
    assert forall k | 0 <= k < |base| :: base[k] != '/';
    assert name[|name| - 1] == 'n';
    LastIndexIs(name, '/', |FOLDER|);
    assert name[|FOLDER| + 1..] == base;
  }

  /** Reading an object name comes down to reading its middle. */
  lemma ExtractFromName(lib: Library, middle: string, shipmentHint: Option<string>)
    requires AllSafe(middle)
    ensures ExtractAttachmentId(lib, ObjectName(middle), shipmentHint) == IdInName(middle, shipmentHint)
  {
    var base := "pod_" + middle + ".bin";
    KeyOfObjectName(lib, middle);
    BaseOfObjectName(middle);
    LastIndexIs(base, '.', 4 + |middle|);
    assert base[..4 + |middle|] == "pod_" + middle;
    assert base[4..4 + |middle|] == middle;
  }

  lemma JoinedParts(id: string, ship: string)
    requires id != ""
    ensures var joined, suffix := Joined(id, ship), "_" + ship;
            && EndsWith(joined, suffix) && |joined| == |id| + |suffix| && joined[..|joined| - |suffix|] == id
    ensures LastIndex(Joined(id, ship), '_') == |id| <==> '_' !in ship
    ensures LastIndex(Joined(id, ship), '_') >= |id| && Joined(id, ship)[..|id|] == id
  {
    var joined := Joined(id, ship);
    assert joined[|id|] == '_';
    assert joined[|id| + 1..] == ship;
    if '_' !in ship {
      forall k | |id| < k < |joined| ensures joined[k] != '_' {
        assert joined[k] == ship[k - |id| - 1];
      }
      LastIndexIs(joined, '_', |id|);
    } else {
      var k :| 0 <= k < |ship| && ship[k] == '_';
      assert joined[|id| + 1 + k] == '_';
    }
  }

  lemma ReadsTheMiddle(lib: Library, attachmentId: Option<string>, shipmentNumber: Option<string>, hint: Option<string>)
    ensures var middle := Joined(SanitizePathSegment(attachmentId), ShipToken(shipmentNumber));
            ExtractAttachmentId(lib, InMemoryAttachmentRef(attachmentId, shipmentNumber), hint) == IdInName(middle, hint)
  {
    SanitizeMeaning(attachmentId);
    SanitizeMeaning(OrText(shipmentNumber, "unknown"));
    JoinedIsSafe(SanitizePathSegment(attachmentId), ShipToken(shipmentNumber));
    ExtractFromName(lib, Joined(SanitizePathSegment(attachmentId), ShipToken(shipmentNumber)), hint);
  }

  lemma JoinedIsSafe(id: string, ship: string)
    requires AllSafe(id) && AllSafe(ship)
    ensures AllSafe(Joined(id, ship))
  {
  }

  /** The token of a missing or empty shipment number holds no underscore. */
  lemma NoShipmentToken(shipmentNumber: Option<string>)
    ensures shipmentNumber.None? || shipmentNumber.value == "" ==> '_' !in ShipToken(shipmentNumber)
    ensures shipmentNumber.Some? && shipmentNumber.value != "" ==> ShipToken(shipmentNumber) == SanitizePathSegment(shipmentNumber)
  {
    SanitizeMeaning(Some("unknown"));
  }

  lemma HintedName(id: string, ship: string, hint: Option<string>)
    requires id != "" && hint.Some? && hint.value != "" && SanitizePathSegment(hint) == ship
    ensures IdInName(Joined(id, ship), hint) == Some(id)
  {
    JoinedParts(id, ship);
  }

  lemma UnhintedName(id: string, ship: string, hint: Option<string>)
    requires id != "" && (hint.None? || hint.value == "")
    ensures IdInName(Joined(id, ship), hint) == Some(id) <==> '_' !in ship
  {
    JoinedParts(id, ship);
  }

  /**
   For every attachment id and shipment number, missing, blank or odd, the id read from the
   built name with the same hint is the sanitised id.
   */
  lemma AttachmentIdRoundTrip(lib: Library, attachmentId: Option<string>, shipmentNumber: Option<string>)
    ensures ExtractAttachmentId(lib, InMemoryAttachmentRef(attachmentId, shipmentNumber), shipmentNumber)
         == Some(SanitizePathSegment(attachmentId))
  {
    SanitizeMeaning(attachmentId);
    ReadsTheMiddle(lib, attachmentId, shipmentNumber, shipmentNumber);
    NoShipmentToken(shipmentNumber);
    if shipmentNumber.Some? && shipmentNumber.value != "" {
      HintedName(SanitizePathSegment(attachmentId), ShipToken(shipmentNumber), shipmentNumber);
    } else {
      UnhintedName(SanitizePathSegment(attachmentId), ShipToken(shipmentNumber), shipmentNumber);
    }
  }

  /** Without a hint the id comes back exactly when the shipment's token holds no underscore. */
  lemma RoundTripWithoutHintIff(lib: Library, attachmentId: Option<string>, shipmentNumber: Option<string>)
    ensures ExtractAttachmentId(lib, InMemoryAttachmentRef(attachmentId, shipmentNumber), None) == Some(SanitizePathSegment(attachmentId))
       <==> '_' !in ShipToken(shipmentNumber)
  {
    SanitizeMeaning(attachmentId);
    ReadsTheMiddle(lib, attachmentId, shipmentNumber, None);
    UnhintedName(SanitizePathSegment(attachmentId), ShipToken(shipmentNumber), None);
  }

  predicate IsToken(s: string) {
    1 <= |s| <= 180 && AllSafe(s)
  }

  lemma TokenIsKept(s: string)
    requires IsToken(s)
    ensures SanitizePathSegment(Some(s)) == s && ShipToken(Some(s)) == s
  {
    SanitizeMeaning(Some(s));
  }

  /** Without a hint all of the shipment's token up to its last underscore stays in the id. */
  lemma UnderscoreStaysInId(lib: Library, id: string, head: string, tail: string)
    requires IsToken(id) && IsToken(Joined(head, tail)) && '_' !in tail
    ensures ExtractAttachmentId(lib, InMemoryAttachmentRef(Some(id), Some(Joined(head, tail))), None) == Some(Joined(id, head))
  {
    TokenIsKept(id);
    TokenIsKept(Joined(head, tail));
    ReadsTheMiddle(lib, Some(id), Some(Joined(head, tail)), None);
    JoinedTwice(id, head, tail);
    UnhintedId(Joined(id, head), tail);
  }

  lemma JoinedTwice(a: string, b: string, c: string)
    ensures Joined(a, Joined(b, c)) == Joined(Joined(a, b), c)
  {
  }

  /** `UnderscoreStaysInId` applies to attachment "x" of shipment "a_b", which reads as "x_a". */
  lemma UnderscoreExample()
    ensures IsToken("x") && IsToken(Joined("a", "b")) && '_' !in "b"
    ensures Joined("a", "b") == "a_b" && Joined("x", "a") == "x_a" && "x_a" != "x"
  {
    assert |"x_a"| != |"x"|;
  }

  lemma UnhintedId(id: string, ship: string)
    requires id != "" && '_' !in ship
    ensures IdInName(Joined(id, ship), None) == Some(id)
  {
    UnhintedName(id, ship, None);
  }
}
