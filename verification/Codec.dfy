/** The command codec: stream fields written by Publish and read back by the consumer. */
module Codec {
  import opened Base
  import opened Decimal

  /** Nanoseconds since the Unix epoch. */
  type Instant = int

  /** The zero time.Time, 1 January of year 1; it stands for "not set". */
  const UNSET: Instant := -62_135_596_800 * 1_000_000_000

  /** A nil payload and an empty one are the same here. */
  datatype Command = Command(
    id: string, station: string, owner: string, generation: nat,
    action: string, payload: string, createdAt: Instant, deadline: Instant)

  datatype Decoded = Ok(command: Command) | BadGeneration | BadTimestamp | InvalidCommand

  predicate Valid(c: Command) {
    && c.id != "" && c.station != "" && c.owner != "" && c.generation != 0 && c.action != ""
    && c.createdAt != UNSET
    && (c.deadline != UNSET ==> c.createdAt < c.deadline)
  }

  /** time.Time.UnixNano: the nanosecond count, wrapped to a signed 64-bit word. */
  function UnixNano(t: Instant): (n: int)
    ensures InInt64(n)
  {
    (t - MIN_INT64) % TWO_TO_64 + MIN_INT64
  }

  function Timestamp(t: Instant): (n: int) { if t == UNSET then 0 else UnixNano(t) }

  function Encode(c: Command): (fields: map<string, string>) {
    map[
      "id" := c.id, "station_identity" := c.station, "owner_id" := c.owner,
      "owner_generation" := Print(c.generation), "action" := c.action, "payload" := c.payload,
      "created_at" := Print(UnixNano(c.createdAt)), "deadline" := Print(Timestamp(c.deadline))
    ]
  }

  /** fmt.Sprint of a field that may be missing. */
  function Sprint(fields: map<string, string>, key: string): (s: string) {
    if key in fields then fields[key] else "<nil>"
  }

  function StringField(fields: map<string, string>, key: string): (s: string) {
    if key in fields then fields[key] else ""
  }

  function DecodeInstant(text: string): (t: Option<Instant>) {
    match ParseInt64(text)
    case None => None
    case Some(n) => Some(if n == 0 then UNSET else n)
  }

  function Decode(fields: map<string, string>): (r: Decoded) {
    var generation := ParseInt64(Sprint(fields, "owner_generation"));
    if generation.None? || generation.value < 0 then BadGeneration
    else
      var createdAt := DecodeInstant(Sprint(fields, "created_at"));
      var deadline := DecodeInstant(Sprint(fields, "deadline"));
      if createdAt.None? || deadline.None? then BadTimestamp
      else
        var c := Command(
          StringField(fields, "id"), StringField(fields, "station_identity"), StringField(fields, "owner_id"),
          generation.value, StringField(fields, "action"), StringField(fields, "payload"),
          createdAt.value, deadline.value);
        if Valid(c) then Ok(c) else InvalidCommand
  }

  /** Every number in the command survives a signed 64-bit word, and no set time is the Unix epoch. */
  predicate RoundTrippable(c: Command) {
    && c.generation <= MAX_INT64
    && InInt64(c.createdAt) && c.createdAt != 0
    && (c.deadline != UNSET ==> InInt64(c.deadline) && c.deadline != 0)
  }

  lemma UnixNanoExact(t: Instant)
    ensures UnixNano(t) == t <==> InInt64(t)
  {
  }

  lemma TimeRoundTrip(t: Instant)
    ensures DecodeInstant(Print(UnixNano(t))) == Some(if UnixNano(t) == 0 then UNSET else UnixNano(t))
    ensures DecodeInstant(Print(Timestamp(t))) == Some(if Timestamp(t) == 0 then UNSET else Timestamp(t))
  {
    ParsePrint(UnixNano(t));
    ParsePrint(Timestamp(t));
  }

  /** The command may be sent: all names given, a generation, a creation time, and no deadline before it. */
  predicate Sendable(c: Command) {
    && c.id != "" && c.station != "" && c.owner != "" && c.action != "" && c.generation > 0
    && c.createdAt != UNSET && (c.deadline == UNSET || c.deadline > c.createdAt)
  }

  /** What the consumer decodes is what was published, exactly for round-trippable commands. */
  lemma RoundTripIff(c: Command)
    requires Sendable(c)
    ensures Decode(Encode(c)) == Ok(c) <==> RoundTrippable(c)
  {
    ParsePrint(c.generation);
    TimeRoundTrip(c.createdAt);
    TimeRoundTrip(c.deadline);
    UnixNanoExact(c.createdAt);
    UnixNanoExact(c.deadline);
  }

  /** Why the others fail: the three ways a published command can be lost or changed. */
  lemma RoundTripFailures(c: Command)
    requires Sendable(c) && InInt64(c.createdAt) && (c.deadline != UNSET ==> InInt64(c.deadline))
    ensures c.generation > MAX_INT64 ==> Decode(Encode(c)) == BadGeneration
    ensures c.generation <= MAX_INT64 && c.createdAt == 0 ==> Decode(Encode(c)) == InvalidCommand
    ensures c.generation <= MAX_INT64 && c.deadline == 0 ==> Decode(Encode(c)) == Ok(c.(deadline := UNSET))
  {
    ParsePrint(c.generation);
    TimeRoundTrip(c.createdAt);
    TimeRoundTrip(c.deadline);
    UnixNanoExact(c.createdAt);
    UnixNanoExact(c.deadline);
  }

  /** A time field: a 64-bit number, 0 standing for no time. */
  predicate IsInstant(fields: map<string, string>, key: string, t: Instant) {
    && key in fields && ParseInt64(fields[key]).Some?
    && t == if ParseInt64(fields[key]).value == 0 then UNSET else ParseInt64(fields[key]).value
  }

  /** The command these stream fields spell, one field at a time; a missing payload is an empty one. */
  predicate Spells(fields: map<string, string>, c: Command) {
    && "id" in fields && c.id == fields["id"] && "station_identity" in fields && c.station == fields["station_identity"]
    && "owner_id" in fields && c.owner == fields["owner_id"] && "action" in fields && c.action == fields["action"]
    && "owner_generation" in fields && ParseInt64(fields["owner_generation"]) == Some(c.generation)
    && c.payload == (if "payload" in fields then fields["payload"] else "")
    && IsInstant(fields, "created_at", c.createdAt) && IsInstant(fields, "deadline", c.deadline)
  }

  lemma NilIsNoNumber()
    ensures ParseInt64("<nil>") == None
  {
    assert !IsDigit("<nil>"[0]);
  }

  /** The field holds a 64-bit number. */
  predicate IsNumber(fields: map<string, string>, key: string) { key in fields && ParseInt64(fields[key]).Some? }

  /**
   * An entry decodes to a command exactly when its fields spell it and it may be
   * sent; otherwise the error names the first thing wrong: the generation, a
   * time, or the command as a whole.
   */
  lemma DecodesIff(fields: map<string, string>, c: Command)
    ensures Decode(fields) == Ok(c) <==> Spells(fields, c) && Sendable(c)
    ensures var generation := IsNumber(fields, "owner_generation") && ParseInt64(fields["owner_generation"]).value >= 0;
      var times := IsNumber(fields, "created_at") && IsNumber(fields, "deadline");
      && (Decode(fields) == BadGeneration <==> !generation)
      && (Decode(fields) == BadTimestamp <==> generation && !times)
  {
    NilIsNoNumber();
  }

  /** What Publish writes spells the command exactly when its numbers fit. */
  lemma EncodeSpells(c: Command)
    requires Sendable(c)
    ensures Spells(Encode(c), c) <==> RoundTrippable(c)
  {
    RoundTripIff(c);
    DecodesIff(Encode(c), c);
  }

  /** Whatever the stream entry holds, a decoded command passes the checks Publish makes. */
  lemma DecodedIsValid(fields: map<string, string>)
    ensures Decode(fields).Ok? ==> Sendable(Decode(fields).command) && Decode(fields).command.generation <= MAX_INT64
    ensures Decode(fields).Ok? ==>
      forall key <- ["id", "station_identity", "owner_id", "owner_generation", "action", "created_at", "deadline"] ::
        key in fields
  {
    NilIsNoNumber();
  }
}
