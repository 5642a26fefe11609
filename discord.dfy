/**
 * The webhook message `sendToDiscord` builds for one incident. The map link
 * and the display timestamp are given as already formatted strings.
 */
module Discord {
  import opened Wrappers
  import opened Incidents

  datatype EmbedField = EmbedField(name: string, value: string, inline: bool)

  datatype EmbedFooter = EmbedFooter(text: string)

  datatype DiscordEmbed = DiscordEmbed(
    title: string,
    color: int,
    fields: seq<EmbedField>,
    footer: EmbedFooter,
    timestamp: string)

  datatype WebhookPayload = WebhookPayload(username: string, embeds: seq<DiscordEmbed>)

  const AlertTitle: string := "\U{1F535} RWECC - New MVC Alert \U{1F535}"
  const AlertColor: int := 3447003
  const FooterText: string := "Fetched from Raleigh-Wake ECC"
  const BotName: string := "RWECC MVC Bot"

  /** What an alert tells the channel about the incident. */
  datatype AlertView = AlertView(
    problem: string,
    address: string,
    jurisdiction: string,
    mapLink: string,
    timestamp: string)

  /**
   * Reads an alert back out of a payload: one embed with the fixed title,
   * colour and footer, and the four fields Problem, Address, Jurisdiction and
   * Map in that order (only Address and Jurisdiction inline). Any other
   * payload is not one the notifier sends.
   */
  function ReadAlert(p: WebhookPayload): Option<AlertView>
  {
    if |p.embeds| != 1 || p.username != BotName then None
    else
      var e := p.embeds[0];
      if && e.title == AlertTitle
         && e.color == AlertColor
         && e.footer == EmbedFooter(FooterText)
         && |e.fields| == 4
         && e.fields[0].name == "Problem" && !e.fields[0].inline
         && e.fields[1].name == "Address" && e.fields[1].inline
         && e.fields[2].name == "Jurisdiction" && e.fields[2].inline
         && e.fields[3].name == "Map" && !e.fields[3].inline
      then Some(AlertView(e.fields[0].value, e.fields[1].value, e.fields[2].value, e.fields[3].value, e.timestamp))
      else None
  }

  /**
   * The payload for one incident. It carries the incident's problem, address
   * and jurisdiction, the map link and the display timestamp, and nothing
   * else of the incident.
   */
  function BuildPayload(incident: Incident, mapLink: string, timestamp: string): (p: WebhookPayload)
    ensures ReadAlert(p) == Some(AlertView(incident.problem, incident.address, incident.jurisdiction, mapLink, timestamp))
  {
    var fields := [
      EmbedField("Problem", incident.problem, false),
      EmbedField("Address", incident.address, true),
      EmbedField("Jurisdiction", incident.jurisdiction, true),
      EmbedField("Map", mapLink, false)
    ];
    var embed := DiscordEmbed(AlertTitle, AlertColor, fields, EmbedFooter(FooterText), timestamp);
    WebhookPayload(BotName, [embed])
  }

  /** Every payload that reads as an alert is the one built for that alert's incident. */
  lemma {:induction false} ReadAlertOnlyAcceptsBuilt(p: WebhookPayload, incident: Incident)
    requires ReadAlert(p).Some?
    requires var v := ReadAlert(p).value;
             incident.problem == v.problem && incident.address == v.address
             && incident.jurisdiction == v.jurisdiction
    ensures p == BuildPayload(incident, ReadAlert(p).value.mapLink, ReadAlert(p).value.timestamp)
  {
    var e := p.embeds[0];
    assert e.fields == [e.fields[0], e.fields[1], e.fields[2], e.fields[3]];
    assert p.embeds == [e];
  }
}
