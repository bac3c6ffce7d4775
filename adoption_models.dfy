/** The adoption records of src/features/adoption/domain/models.ts and
    `buildWhatsAppMessage`, the text sent to the nursery manager. The
    current time, used when a record carries no creation date, is the
    parameter `now` (an ISO 8601 timestamp). */
module AdoptionModels {
  import opened JsString

  datatype Plant = Plant(
    id: string,
    commonName: string,
    scientificName: Option<string>,
    description: Option<string>,
    imageUrl: Option<string>,
    available: bool)

  datatype Adoption = Adoption(
    id: Option<string>,
    plantId: string,
    plantCommonName: string,
    adopterName: string,
    phone: string,
    address: Option<string>,
    city: Option<string>,
    reason: string,
    consent: bool,
    createdAt: Option<string>)

  const HEADER: string := "Adopción de planta - Vivero Municipal Bagua"
  const NAME_LABEL: string := "Nombre: "
  const PHONE_LABEL: string := "Teléfono: "
  const PLANT_LABEL: string := "Planta: "
  const ADDRESS_LABEL: string := "Dirección: "
  const CITY_LABEL: string := "Ciudad: "
  const REASON_LABEL: string := "Motivo: "
  const DATE_LABEL: string := "Fecha: "

  /** `x ?? ""` */
  function OrEmpty(x: Option<string>): string {
    if x.Some? then x.value else ""
  }

  /** The date the message shows: the record's own, else the current time. */
  function MessageDate(a: Adoption, now: string): string {
    if a.createdAt.Some? then a.createdAt.value else now
  }

  /** The eight lines of the message, in order. */
  function MessageLines(a: Adoption, now: string): (lines: seq<string>)
    ensures |lines| == 8
  {
    [ HEADER,
      NAME_LABEL + a.adopterName,
      PHONE_LABEL + a.phone,
      PLANT_LABEL + a.plantCommonName + " (" + a.plantId + ")",
      ADDRESS_LABEL + OrEmpty(a.address),
      CITY_LABEL + OrEmpty(a.city),
      REASON_LABEL + a.reason,
      DATE_LABEL + MessageDate(a, now) ]
  }

  /** `buildWhatsAppMessage`: the lines joined with line feeds. */
  function BuildWhatsAppMessage(a: Adoption, now: string): (msg: string)
    ensures StartsWith(msg, HEADER + "\n" + NAME_LABEL + a.adopterName)
    ensures EndsWith(msg, "\n" + DATE_LABEL + MessageDate(a, now))
  {
    var lines := MessageLines(a, now);
    JoinStartsWith(lines, '\n');
    JoinEndsWith(lines, '\n');
    Join(lines, '\n')
  }

  lemma JoinStartsWith(lines: seq<string>, sep: char)
    requires |lines| >= 2
    ensures StartsWith(Join(lines, sep), lines[0] + [sep] + lines[1])
  {
    var rest := Join(lines[1..], sep);
    assert StartsWith(rest, lines[1]) by {
      if |lines| > 2 {
        assert rest == lines[1] + [sep] + Join(lines[2..], sep);
      }
    }
    assert Join(lines, sep) == lines[0] + [sep] + rest;
    var n := |lines[0] + [sep] + lines[1]|;
    assert Join(lines, sep)[..n] == lines[0] + [sep] + rest[..|lines[1]|];
  }

  lemma {:induction false} JoinEndsWith(lines: seq<string>, sep: char)
    requires |lines| >= 2
    ensures EndsWith(Join(lines, sep), [sep] + lines[|lines| - 1])
  {
    var last := lines[|lines| - 1];
    if |lines| == 2 {
      assert Join(lines, sep) == lines[0] + ([sep] + last);
    } else {
      JoinEndsWith(lines[1..], sep);
      var rest := Join(lines[1..], sep);
      assert Join(lines, sep) == (lines[0] + [sep]) + rest;
    }
  }

  /** No line of the message holds a line feed of its own. */
  predicate SingleLineFields(a: Adoption, now: string) {
    '\n' !in a.adopterName && '\n' !in a.phone && '\n' !in a.plantCommonName
    && '\n' !in a.plantId && '\n' !in OrEmpty(a.address) && '\n' !in OrEmpty(a.city)
    && '\n' !in a.reason && '\n' !in MessageDate(a, now)
  }

  /** When no field spans lines, splitting the message on line feeds gives
      back exactly eight lines: the fixed header, then each label with its
      field verbatim, in order. */
  lemma {:induction false} MessageLinesRecovered(a: Adoption, now: string)
    requires SingleLineFields(a, now)
    ensures var lines := Split(BuildWhatsAppMessage(a, now), '\n');
            |lines| == 8 && lines[0] == HEADER
            && lines[1] == NAME_LABEL + a.adopterName
            && lines[2] == PHONE_LABEL + a.phone
            && lines[3] == PLANT_LABEL + a.plantCommonName + " (" + a.plantId + ")"
            && lines[4] == ADDRESS_LABEL + OrEmpty(a.address)
            && lines[5] == CITY_LABEL + OrEmpty(a.city)
            && lines[6] == REASON_LABEL + a.reason
            && lines[7] == DATE_LABEL + MessageDate(a, now)
  {
    var lines := MessageLines(a, now);
    forall i | 0 <= i < |lines| ensures '\n' !in lines[i] {
      NoLineFeedInLine(a, now, i);
    }
    SplitJoin(lines, '\n');
  }

  lemma NoLineFeedInLine(a: Adoption, now: string, i: nat)
    requires SingleLineFields(a, now) && i < 8
    ensures '\n' !in MessageLines(a, now)[i]
  {
    var lines := MessageLines(a, now);
    if i == 3 {
      assert lines[3] == PLANT_LABEL + a.plantCommonName + " (" + a.plantId + ")";
    }
  }

  /** The record's id and the consent flag never reach the message. */
  lemma MessageIgnoresIdAndConsent(a: Adoption, now: string, id: Option<string>, consent: bool)
    ensures BuildWhatsAppMessage(a.(id := id, consent := consent), now) == BuildWhatsAppMessage(a, now)
  {
    assert MessageLines(a.(id := id, consent := consent), now) == MessageLines(a, now);
  }

  /** An absent address or city reads like an empty one. */
  lemma AbsentReadsAsEmpty(a: Adoption, now: string)
    ensures BuildWhatsAppMessage(a.(address := None), now) == BuildWhatsAppMessage(a.(address := Some("")), now)
    ensures BuildWhatsAppMessage(a.(city := None), now) == BuildWhatsAppMessage(a.(city := Some("")), now)
  {
    assert MessageLines(a.(address := None), now) == MessageLines(a.(address := Some("")), now);
    assert MessageLines(a.(city := None), now) == MessageLines(a.(city := Some("")), now);
  }

  /** A record with a creation date gives the same message at any time;
      one without shows the current time. */
  lemma DateFromRecordOrClock(a: Adoption, now1: string, now2: string)
    ensures a.createdAt.Some? ==> BuildWhatsAppMessage(a, now1) == BuildWhatsAppMessage(a, now2)
    ensures a.createdAt.None? ==> EndsWith(BuildWhatsAppMessage(a, now1), "\n" + DATE_LABEL + now1)
  {
    assert a.createdAt.Some? ==> MessageLines(a, now1) == MessageLines(a, now2);
  }
}
