/** The notifier (`sendDiscordNotification`): each new announcement becomes an
    embed, the embeds are posted in chunks of ten, and only the first chunk
    carries the summary header. The HTTP sink is modelled by the sequence of
    payloads posted; a failed POST is only logged, so it does not appear. */
module Notifier {
  import opened Wrappers
  import opened Text
  import opened Extractor

  datatype EmbedField = EmbedField(name: string, value: string, inline: bool)

  datatype Embed = Embed(
    title: string,
    url: string,
    color: nat,
    fields: seq<EmbedField>,
    footer: string)

  /** One webhook message body, `{ content?, embeds }`. */
  datatype Payload = Payload(content: Option<string>, embeds: seq<Embed>)

  /** The sink accepts at most this many embeds per message. */
  const ChunkSize: nat := 10
  const EmbedColor: nat := 0x00ff00
  const TitlePrefix := "[신규 공고] "
  const FooterPrefix := "ID: "
  const DateFieldName := "진행일자"
  const AgencyFieldName := "수요기관"

  function ToEmbed(a: Announcement): Embed {
    Embed(TitlePrefix + a.title, a.link, EmbedColor,
          [EmbedField(DateFieldName, a.date, true), EmbedField(AgencyFieldName, a.agency, true)],
          FooterPrefix + a.id)
  }

  /** Reads an embed back into the announcement it reports (status "Open"). */
  function FromEmbed(e: Embed): Option<Announcement> {
    if StartsWith(e.title, TitlePrefix) && StartsWith(e.footer, FooterPrefix) && |e.fields| == 2 then
      Some(Announcement(e.footer[|FooterPrefix|..], e.title[|TitlePrefix|..], e.url,
                        e.fields[0].value, e.fields[1].value, OpenStatus))
    else None
  }

  /** An embed carries everything an extracted announcement holds: reading it
      back gives the announcement again. */
  lemma EmbedRoundTrip(a: Announcement)
    requires a.status == OpenStatus
    ensures FromEmbed(ToEmbed(a)) == Some(a)
  {
    var e := ToEmbed(a);
    assert e.title[|TitlePrefix|..] == a.title;
    assert e.footer[|FooterPrefix|..] == a.id;
  }

  /** The summary header: "🔔 **{count}건의 새로운 발주 공고가 발견되었습니다!**". */
  function Header(count: nat): string {
    "\U{1F514} **" + NatToDecimal(count) + "건의 새로운 발주 공고가 발견되었습니다!**"
  }

  function Min(a: nat, b: nat): nat {
    if a <= b then a else b
  }

  /** The messages of the chunk loop from offset `i` on: `embeds.slice(i, i + 10)`
      each, with the header only when `i == 0`. */
  function PayloadsFrom(embeds: seq<Embed>, count: nat, i: nat): seq<Payload>
    decreases |embeds| - i
  {
    if i >= |embeds| then []
    else [Payload(if i == 0 then Some(Header(count)) else None, embeds[i..Min(i + ChunkSize, |embeds|)])] +
         PayloadsFrom(embeds, count, i + ChunkSize)
  }

  /** Every message the notifier posts for `items`, in order. */
  function Payloads(items: seq<Announcement>): seq<Payload> {
    PayloadsFrom(MapSeq(ToEmbed, items), |items|, 0)
  }

  /** The embeds of a sequence of messages, concatenated. */
  function AllEmbeds(ps: seq<Payload>): seq<Embed> {
    if ps == [] then [] else ps[0].embeds + AllEmbeds(ps[1..])
  }

  /** `sendDiscordNotification`: nothing is posted when no webhook is
      configured; otherwise the loop posts one message per chunk of ten, and a
      failed POST does not stop the next. */
  method SendNotification(webhookConfigured: bool, items: seq<Announcement>) returns (posted: seq<Payload>)
    ensures !webhookConfigured ==> posted == []
    ensures webhookConfigured ==> posted == Payloads(items)
  {
    posted := [];
    if !webhookConfigured {
      return;
    }
    var embeds := MapSeq(ToEmbed, items);
    var i := 0;
    while i < |embeds|
      invariant posted + PayloadsFrom(embeds, |items|, i) == Payloads(items)
      decreases |embeds| - i
    {
      var chunk := embeds[i..Min(i + ChunkSize, |embeds|)];
      var content := if i == 0 then Some(Header(|items|)) else None;
      posted := posted + [Payload(content, chunk)];
      i := i + ChunkSize;
    }
  }

  /** The loop runs ceil(k / 10) times for k embeds. */
  lemma {:induction false} PayloadsFromCount(embeds: seq<Embed>, count: nat, i: nat)
    ensures |PayloadsFrom(embeds, count, i)| ==
      if i >= |embeds| then 0 else (|embeds| - i + ChunkSize - 1) / ChunkSize
    decreases |embeds| - i
  {
    if i < |embeds| {
      PayloadsFromCount(embeds, count, i + ChunkSize);
    }
  }

  /** Every message holds between one and ten embeds. */
  lemma {:induction false} PayloadsFromSizes(embeds: seq<Embed>, count: nat, i: nat)
    ensures forall p :: p in PayloadsFrom(embeds, count, i) ==> 1 <= |p.embeds| <= ChunkSize
    decreases |embeds| - i
  {
    if i < |embeds| {
      PayloadsFromSizes(embeds, count, i + ChunkSize);
    }
  }

  /** The messages' embeds, concatenated, are the embeds from offset `i` on. */
  lemma {:induction false} PayloadsFromConcat(embeds: seq<Embed>, count: nat, i: nat)
    requires i <= |embeds|
    ensures AllEmbeds(PayloadsFrom(embeds, count, i)) == embeds[i..]
    decreases |embeds| - i
  {
    if i < |embeds| {
      var ps := PayloadsFrom(embeds, count, i);
      var j := Min(i + ChunkSize, |embeds|);
      if i + ChunkSize < |embeds| {
        PayloadsFromConcat(embeds, count, i + ChunkSize);
      } else {
        assert PayloadsFrom(embeds, count, i + ChunkSize) == [];
      }
      assert ps[1..] == PayloadsFrom(embeds, count, i + ChunkSize);
      assert embeds[i..] == embeds[i..j] + embeds[j..];
    }
  }

  /** Only the message at offset 0 carries the header. */
  lemma {:induction false} PayloadsFromHeader(embeds: seq<Embed>, count: nat, i: nat, k: nat)
    requires k < |PayloadsFrom(embeds, count, i)|
    ensures PayloadsFrom(embeds, count, i)[k].content ==
      if i == 0 && k == 0 then Some(Header(count)) else None
    decreases |embeds| - i
  {
    if k > 0 {
      PayloadsFromHeader(embeds, count, i + ChunkSize, k - 1);
    }
  }

  /** The notifier's batching contract for k items: ceil(k / 10) messages of
      one to ten embeds each, whose embeds concatenate to the items' embeds in
      order, with the header reporting k on the first message only. */
  lemma PayloadsSpec(items: seq<Announcement>)
    ensures |Payloads(items)| == (|items| + ChunkSize - 1) / ChunkSize
    ensures forall p :: p in Payloads(items) ==> 1 <= |p.embeds| <= ChunkSize
    ensures AllEmbeds(Payloads(items)) == MapSeq(ToEmbed, items)
    ensures forall k :: 0 <= k < |Payloads(items)| ==>
      Payloads(items)[k].content == if k == 0 then Some(Header(|items|)) else None
  {
    var embeds := MapSeq(ToEmbed, items);
    PayloadsFromCount(embeds, |items|, 0);
    PayloadsFromSizes(embeds, |items|, 0);
    PayloadsFromConcat(embeds, |items|, 0);
    assert embeds[0..] == embeds;
    forall k | 0 <= k < |Payloads(items)|
      ensures Payloads(items)[k].content == if k == 0 then Some(Header(|items|)) else None
    {
      PayloadsFromHeader(embeds, |items|, 0, k);
    }
  }
}
