/**
 * The reply of the number provider's `getNumber` action, read the way the
 * handler reads it: `ACCESS_NUMBER:<id>:<number>` is a rented number, any
 * other text is passed back to the client as the error.
 */
module Provider {
  import opened Text

  datatype NumberReply = Acquired(id: string, number: string) | Refused(raw: string)

  const AccessNumber: string := "ACCESS_NUMBER"

  /**
   * Split on `:`; exactly three fields with `ACCESS_NUMBER` first give the id
   * and the number, anything else is refused with the reply unchanged.
   */
  function ParseNumberReply(data: string): (r: NumberReply)
    ensures r.Acquired? <==> |Split(data, ':')| == 3 && Split(data, ':')[0] == AccessNumber
    ensures r.Acquired? ==> data == AccessNumber + ":" + r.id + ":" + r.number
    ensures r.Acquired? ==> ':' !in r.id && ':' !in r.number
    ensures r.Refused? ==> r.raw == data
  {
    var parts := Split(data, ':');
    if parts[0] == AccessNumber && |parts| == 3 then
      SplitJoin(data, ':');
      JoinThree(parts);
      Acquired(parts[1], parts[2])
    else
      Refused(data)
  }

  /** Three fields joined with `:`. */
  lemma JoinThree(fields: seq<string>)
    requires |fields| == 3
    ensures Join(fields, ':') == fields[0] + ":" + fields[1] + ":" + fields[2]
  {
    assert fields[1..][1..] == [fields[2]];
    assert Join(fields[1..], ':') == fields[1] + ":" + fields[2];
  }

  /** Every colon-free id and number the provider can announce is read back as sent. */
  lemma ParseNumberReplyRoundTrip(id: string, number: string)
    requires ':' !in id && ':' !in number
    ensures ParseNumberReply(AccessNumber + ":" + id + ":" + number) == Acquired(id, number)
  {
    var fields := [AccessNumber, id, number];
    JoinThree(fields);
    JoinSplit(fields, ':');
  }

  /** A reply with an extra field, such as a colon inside the number, is refused whole. */
  lemma ParseNumberReplyRejectsExtraField(id: string, number: string, extra: string)
    requires ':' !in id && ':' !in number && ':' !in extra
    ensures ParseNumberReply(AccessNumber + ":" + id + ":" + number + ":" + extra)
            == Refused(AccessNumber + ":" + id + ":" + number + ":" + extra)
  {
    var fields := [AccessNumber, id, number, extra];
    var data := AccessNumber + ":" + id + ":" + number + ":" + extra;
    JoinThree(fields[1..]);
    assert Join(fields, ':') == data;
    JoinSplit(fields, ':');
    assert |Split(data, ':')| == 4;
  }
}
