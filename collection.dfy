/**
 * The collection round between the device (QRcode.h) and the server
 * (main.go): the sample id the device builds, the server's parsing of it,
 * and the get_user query the device sends.
 */
module Collection {
  import opened Wrappers
  import opened Text
  import QRcode
  import Server

  /** A sample id splits into the serial, the stamp's own parts, and the mixed characters. */
  lemma SampleIdParts(serial: string, time: string, mixed: string)
    requires '-' !in serial && '-' !in mixed
    ensures Split(QRcode.SampleId(serial, time, mixed), '-') == [serial] + Split(time, '-') + [mixed]
  {
    FindSpec(serial, '-');
    FindSpec(mixed, '-');
    assert QRcode.SampleId(serial, time, mixed) == serial + ['-'] + (time + ['-'] + mixed);
    SplitConcat(serial, time + ['-'] + mixed, '-');
    SplitConcat(time, mixed, '-');
  }

  /** The text parseSampleID hands to time.Parse for a stamp's six fields: "YYYY-MM-DD HH:MM:SS". */
  function GoStamp(t: QRcode.Tm): string
  {
    var f := QRcode.TimeFields(t);
    f[0] + "-" + f[1] + "-" + f[2] + " " + f[3] + ":" + f[4] + ":" + f[5]
  }

  /** With the five-field stamp get_current_time writes, the server refuses every sample id the device makes. */
  lemma AsWrittenSampleIdRefused(serial: string, t: QRcode.Tm, mixed: string)
    requires '-' !in serial && '-' !in mixed
    ensures |Split(QRcode.SampleId(serial, QRcode.CurrentTimeAsWritten(t), mixed), '-')| == 7
    ensures Server.ParseSampleID(QRcode.SampleId(serial, QRcode.CurrentTimeAsWritten(t), mixed)) == None
  {
    SampleIdParts(serial, QRcode.CurrentTimeAsWritten(t), mixed);
  }

  /** With the six-field stamp, the server reads back the serial as device id and the stamp in Go's layout. */
  lemma SampleIdParsed(serial: string, t: QRcode.Tm, mixed: string)
    requires '-' !in serial && '-' !in mixed
    ensures Server.ParseSampleID(QRcode.SampleId(serial, QRcode.CurrentTime(t), mixed)) == Some((serial, GoStamp(t)))
  {
    SampleIdParts(serial, QRcode.CurrentTime(t), mixed);
    QRcode.CurrentTimeFields(t);
  }

  /** Binding a sample id records the device serial as the device id. */
  lemma SampleIdDevice(serial: string, time: string, mixed: string)
    requires '-' !in serial
    ensures Server.ParseDeviceID(QRcode.SampleId(serial, time, mixed)) == Some(serial)
  {
    var s := QRcode.SampleId(serial, time, mixed);
    assert s[|serial|] == '-' && s[..|serial|] == serial;
    FindAt(s, '-', |serial|);
    Server.ParseDeviceIDSpec(s);
  }

  /** The shuffled digits and letters never hold a '-'. */
  lemma MixedDashFree(numDraws: seq<int>, letterDraws: seq<int>, picks: seq<int>)
    requires QRcode.DigitDraws(numDraws) && QRcode.LetterDraws(letterDraws, QRcode.ALPHABET_LAST)
    requires QRcode.ValidPicks(|numDraws| + |letterDraws|, picks)
    ensures QRcode.Letters(letterDraws).Some?
    ensures '-' !in QRcode.Shuffled(QRcode.Digits(numDraws) + QRcode.Letters(letterDraws).value, picks, |picks|)
  {
    QRcode.DigitsShape(numDraws);
    QRcode.LettersInAlphabet(letterDraws);
    var combined := QRcode.Digits(numDraws) + QRcode.Letters(letterDraws).value;
    QRcode.ShuffledPermutes(combined, picks, |picks|);
    forall i | 0 <= i < |combined|
      ensures combined[i] != '-'
    {
      if i < |numDraws| {
        assert IsDigit(QRcode.Digits(numDraws)[i]);
      } else {
        assert combined[i] == QRcode.Letters(letterDraws).value[i - |numDraws|];
      }
    }
    assert '-' !in multiset(combined);
  }

  /** The sample id of one round of Generate_and_send_user_message. */
  function DeviceSampleId(t: QRcode.Tm, serial: string, numDraws: seq<int>, letterDraws: seq<int>, picks: seq<int>): string
    requires QRcode.DigitDraws(numDraws) && QRcode.LetterDraws(letterDraws, QRcode.ALPHABET_LAST)
    requires QRcode.ValidPicks(|numDraws| + |letterDraws|, picks)
  {
    QRcode.LettersInAlphabet(letterDraws);
    QRcode.SampleId(serial, QRcode.CurrentTime(t),
                    QRcode.Shuffled(QRcode.Digits(numDraws) + QRcode.Letters(letterDraws).value, picks, |picks|))
  }

  /** Every sample id the device makes, for a serial without '-', parses on the server and binds to that serial. */
  lemma DeviceSampleIdAccepted(t: QRcode.Tm, serial: string, numDraws: seq<int>, letterDraws: seq<int>, picks: seq<int>)
    requires QRcode.DigitDraws(numDraws) && QRcode.LetterDraws(letterDraws, QRcode.ALPHABET_LAST)
    requires QRcode.ValidPicks(|numDraws| + |letterDraws|, picks)
    requires '-' !in serial
    ensures Server.ParseSampleID(DeviceSampleId(t, serial, numDraws, letterDraws, picks)) == Some((serial, GoStamp(t)))
    ensures Server.ParseDeviceID(DeviceSampleId(t, serial, numDraws, letterDraws, picks)) == Some(serial)
  {
    MixedDashFree(numDraws, letterDraws, picks);
    var mixed := QRcode.Shuffled(QRcode.Digits(numDraws) + QRcode.Letters(letterDraws).value, picks, |picks|);
    SampleIdParsed(serial, t, mixed);
    SampleIdDevice(serial, QRcode.CurrentTime(t), mixed);
  }

  /** The query as the device writes it carries no "sample_id", so get_user always answers 400. */
  lemma AsWrittenQueryRefused(db: Server.Db, sampleId: string, lookupFails: bool)
    ensures Server.GetUser(db, QRcode.GetUserQueryAsWritten(sampleId), lookupFails) == (Server.BAD_REQUEST, None)
  {
    assert !IsWhiteSpace('x');
    assert Trim("") == "";
  }

  /** With the key the server reads, get_user names the user who bound the sample. */
  lemma QueryAnswered(db: Server.Db, sampleId: string, caller: string, sampleUuid: string, writeOk: bool)
    requires caller != ""
    requires Server.Bind(db, sampleId, caller, sampleUuid, false, writeOk).status == Server.OK
    ensures Server.GetUser(Server.Bind(db, sampleId, caller, sampleUuid, false, writeOk).db, QRcode.GetUserQuery(sampleId), false)
      == (Server.OK, Some(caller))
  {
    Server.BindThenGetUser(db, sampleId, caller, sampleUuid, writeOk);
  }
}
