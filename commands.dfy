/** The host command language: the tokens of one command line and what they ask for. */
module Commands {
  import opened Wire

  /** One host command, as `decodeTransmission` understands it. Servo ids and
      the power value are stored into chars; angles and speeds stay ints. */
  datatype Command =
    | Reset                               // x: forget every module
    | Count                               // n: report the number of modules
    | WriteAngle(id: Byte, angle: int)    // w id a v
    | WritePower(id: Byte, power: Byte)   // w id p v
    | WriteSpeed(id: Byte, speed: int)    // w id s v
    | ReadAngle(id: Byte)                 // r id a
    | ReadPower(id: Byte)                 // r id p
    | ReadType(id: Byte)                  // r id t
    | ReadChild(id: Byte)                 // r id c
    | NoAction                            // anything else, or a command cut short

  /** The first character of a token, NUL for an empty one. */
  function Lead(token: string): char
  {
    if |token| > 0 then token[0] else '\0'
  }

  /** Whether a token starts with the given letter in either case. */
  predicate Starts(token: string, lower: char, upper: char)
  {
    Lead(token) == lower || Lead(token) == upper
  }

  /** What a tokenised command line asks for. Only the first character of a
      command token counts, in either case; extra tokens are ignored, and a
      command missing a token does nothing. */
  function Parse(tokens: seq<string>): (c: Command)
    ensures c != NoAction ==> |tokens| >= 1
    ensures (c.WriteAngle? || c.WritePower? || c.WriteSpeed?) ==> |tokens| >= 4 && Starts(tokens[0], 'w', 'W')
    ensures (c.ReadAngle? || c.ReadPower? || c.ReadType? || c.ReadChild?) ==> |tokens| >= 3 && Starts(tokens[0], 'r', 'R')
  {
    if |tokens| == 0 then NoAction
    else if Starts(tokens[0], 'x', 'X') then Reset
    else if Starts(tokens[0], 'n', 'N') then Count
    else if Starts(tokens[0], 'w', 'W') then
      if |tokens| < 3 then NoAction
      else
        var id := ToByte(Atoi(tokens[1]));
        if Starts(tokens[2], 'a', 'A') then
          if |tokens| < 4 then NoAction else WriteAngle(id, Atoi(tokens[3]))
        else if Starts(tokens[2], 'p', 'P') then
          if |tokens| < 4 then NoAction else WritePower(id, ToByte(Atoi(tokens[3])))
        else if Starts(tokens[2], 's', 'S') then
          if |tokens| < 4 then NoAction else WriteSpeed(id, Atoi(tokens[3]))
        else NoAction
    else if Starts(tokens[0], 'r', 'R') then
      if |tokens| < 3 then NoAction
      else
        var id := ToByte(Atoi(tokens[1]));
        if Starts(tokens[2], 'a', 'A') then ReadAngle(id)
        else if Starts(tokens[2], 'p', 'P') then ReadPower(id)
        else if Starts(tokens[2], 't', 'T') then ReadType(id)
        else if Starts(tokens[2], 'c', 'C') then ReadChild(id)
        else NoAction
    else NoAction
  }

  /** The canonical command line for a command: lower-case letters and decimal numbers. */
  function Format(c: Command): seq<string>
  {
    match c
    case Reset => ["x"]
    case Count => ["n"]
    case WriteAngle(id, v) => ["w", DecimalString(id), "a", SignedDecimal(v)]
    case WritePower(id, v) => ["w", DecimalString(id), "p", DecimalString(v)]
    case WriteSpeed(id, v) => ["w", DecimalString(id), "s", SignedDecimal(v)]
    case ReadAngle(id) => ["r", DecimalString(id), "a"]
    case ReadPower(id) => ["r", DecimalString(id), "p"]
    case ReadType(id) => ["r", DecimalString(id), "t"]
    case ReadChild(id) => ["r", DecimalString(id), "c"]
    case NoAction => []
  }

  /** The three servo writes read back from their canonical lines. */
  lemma ParseWrites(id: Byte, v: int, b: Byte)
    ensures Parse(Format(WriteAngle(id, v))) == WriteAngle(id, v)
    ensures Parse(Format(WriteSpeed(id, v))) == WriteSpeed(id, v)
    ensures Parse(Format(WritePower(id, b))) == WritePower(id, b)
  {
    AtoiOfDecimal(id);
    AtoiOfSigned(v);
    AtoiOfDecimal(b);
  }

  /** The four reads read back from their canonical lines. */
  lemma ParseReads(id: Byte)
    ensures Parse(Format(ReadAngle(id))) == ReadAngle(id)
    ensures Parse(Format(ReadPower(id))) == ReadPower(id)
    ensures Parse(Format(ReadType(id))) == ReadType(id)
    ensures Parse(Format(ReadChild(id))) == ReadChild(id)
  {
    AtoiOfDecimal(id);
  }

  /** Every command can be written as a command line the dispatcher reads back as that command. */
  lemma ParseFormat(c: Command)
    ensures Parse(Format(c)) == c
  {
    match c
    case WriteAngle(id, v) => ParseWrites(id, v, 0);
    case WritePower(id, v) => ParseWrites(id, 0, v);
    case WriteSpeed(id, v) => ParseWrites(id, v, 0);
    case ReadAngle(id) => ParseReads(id);
    case ReadPower(id) => ParseReads(id);
    case ReadType(id) => ParseReads(id);
    case ReadChild(id) => ParseReads(id);
    case _ =>
  }

  /** Only the first character of a command token matters: a line whose
      command tokens start with the same letters (ignoring case) means the same. */
  lemma ParseByLeads(xs: seq<string>, ys: seq<string>)
    requires |xs| == |ys| && |xs| >= 1
    requires Lead(xs[0]) == Lead(ys[0])
    requires |xs| >= 2 ==> xs[1] == ys[1]
    requires |xs| >= 3 ==> Lead(xs[2]) == Lead(ys[2])
    requires |xs| >= 4 ==> xs[3] == ys[3]
    ensures Parse(xs) == Parse(ys)
  {
  }
}
