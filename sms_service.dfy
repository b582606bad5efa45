/**
 * The SMS channel (SmsService of the backend). Off unless configured on,
 * with the "mock" provider by default. When on, each send builds the text
 * and dispatches it on the provider name, lower-cased; every provider
 * branch only logs. A failure while building is caught and logged.
 */
module SmsChannel {
  import opened Domain

  const DefaultProvider: string := "mock"

  datatype Provider = Twilio | Nexmo | Mock

  /** `Character.toLowerCase` on the ASCII capitals; every other character is kept. */
  function LowerChar(c: char): char
  {
    if 'A' <= c <= 'Z' then (c as int + 32) as char else c
  }

  function LowerAscii(s: string): (r: string)
    ensures |r| == |s|
    ensures forall i :: 0 <= i < |s| ==> r[i] == LowerChar(s[i])
  {
    seq(|s|, i requires 0 <= i < |s| => LowerChar(s[i]))
  }

  /** The `switch (smsProvider.toLowerCase())` of sendSms: "mock" and every unknown name share the mock branch. */
  function ProviderOf(name: string): (p: Provider)
    ensures p == Twilio <==> LowerAscii(name) == "twilio"
    ensures p == Nexmo <==> LowerAscii(name) == "nexmo"
    ensures p == Mock <==> LowerAscii(name) != "twilio" && LowerAscii(name) != "nexmo"
  {
    var key := LowerAscii(name);
    if key == "twilio" then Twilio
    else if key == "nexmo" then Nexmo
    else Mock
  }

  /** The dispatch ignores letter case: names that agree up to case pick the same provider. */
  lemma ProviderIgnoresCase(a: string, b: string)
    requires |a| == |b|
    requires forall i :: 0 <= i < |a| ==> LowerChar(a[i]) == LowerChar(b[i])
    ensures ProviderOf(a) == ProviderOf(b)
  {
    assert LowerAscii(a) == LowerAscii(b);
  }

  /** The default provider name picks the mock branch. */
  lemma DefaultIsMock()
    ensures ProviderOf(DefaultProvider) == Mock
  {
    assert LowerAscii(DefaultProvider) == "mock";
  }

  /** The status `switch` of buildAppointmentStatusSmsContent; its `default` arm is unreachable. */
  function StatusWord(s: AppointmentStatus): string
  {
    match s
    case Confirme => "confirmé"
    case Annule => "annulé"
    case Termine => "terminé"
    case Reporte => "reporté"
    case Propose => "proposé"
    case Demande => "reçu"
  }

  /** Distinct statuses give distinct words. */
  lemma StatusWordInjective(s: AppointmentStatus, t: AppointmentStatus)
    requires StatusWord(s) == StatusWord(t)
    ensures s == t
  {
  }

  datatype SmsKind = NewAppointmentSms | StatusSms | ObligatorySms

  /** The fields `String.format` fills in; `%s` of null prints "null". */
  datatype SmsBody =
    | NewAppointmentText(date: Instant, location: string, visitType: string)
    | StatusText(word: string, date: Instant, location: string)
    | ObligatoryText(date: Instant, location: string, visitType: string)

  /** One text handed to a provider branch; the phone number may be null. */
  datatype Sms = Sms(to: Option<string>, provider: Provider, body: SmsBody)

  /** The text builders: each formats `appointmentDate` without a null check. */
  function BuildText(k: SmsKind, a: AppointmentRecord): (r: Result<SmsBody>)
    ensures r.Err? <==> a.appointmentDate.None?
    ensures r.Err? ==> r.error == NullPointer
    ensures r.Ok? ==> r.value.date == a.appointmentDate.value
    ensures r.Ok? ==> (r.value.StatusText? <==> k == StatusSms) && (r.value.ObligatoryText? <==> k == ObligatorySms)
    ensures r.Ok? && k == StatusSms ==> r.value.word == StatusWord(a.status)
  {
    if a.appointmentDate.None? then Err(NullPointer)
    else
      var d := a.appointmentDate.value;
      match k
      case NewAppointmentSms => Ok(NewAppointmentText(d, JavaString(a.location), JavaString(a.kind)))
      case StatusSms => Ok(StatusText(StatusWord(a.status), d, JavaString(a.location)))
      case ObligatorySms => Ok(ObligatoryText(d, JavaString(a.location), JavaString(a.kind)))
  }

  /**
   * What one send dispatches: nothing when disabled or when the text
   * cannot be built; otherwise one text to the user's phone through the
   * configured provider. No provider branch can fail.
   */
  function Dispatched(enabled: bool, providerName: string, k: SmsKind, u: User, a: AppointmentRecord): (sent: seq<Sms>)
    ensures |sent| <= 1
    ensures sent == [] <==> !enabled || a.appointmentDate.None?
    ensures sent != [] ==>
      sent[0].to == u.phone && sent[0].provider == ProviderOf(providerName) && BuildText(k, a) == Ok(sent[0].body)
  {
    if !enabled then []
    else
      var text := BuildText(k, a);
      if text.Err? then [] else [Sms(u.phone, ProviderOf(providerName), text.value)]
  }

  /** The SMS service: its two configuration values and the texts dispatched so far. */
  class SmsService {
    const enabled: bool
    const providerName: string
    var sent: seq<Sms>

    /** The defaults of `app.notification.sms.enabled` and `app.notification.sms.provider`. */
    constructor Default()
      ensures !enabled && providerName == DefaultProvider && sent == []
    {
      enabled := false;
      providerName := DefaultProvider;
      sent := [];
    }

    constructor (enabled: bool, providerName: string)
      ensures this.enabled == enabled && this.providerName == providerName && sent == []
    {
      this.enabled := enabled;
      this.providerName := providerName;
      sent := [];
    }

    /** One gated send; a build failure is swallowed. */
    method Send(k: SmsKind, u: User, a: AppointmentRecord)
      modifies this
      ensures sent == old(sent) + Dispatched(enabled, providerName, k, u, a)
    {
      if !enabled {
        return;
      }
      var text := BuildText(k, a);
      if text.Err? {
        return;
      }
      var provider := ProviderOf(providerName);
      sent := sent + [Sms(u.phone, provider, text.value)];
    }

    method SendAppointmentNotification(u: User, a: AppointmentRecord)
      modifies this
      ensures sent == old(sent) + Dispatched(enabled, providerName, NewAppointmentSms, u, a)
    {
      Send(NewAppointmentSms, u, a);
    }

    method SendAppointmentStatusNotification(u: User, a: AppointmentRecord)
      modifies this
      ensures sent == old(sent) + Dispatched(enabled, providerName, StatusSms, u, a)
    {
      Send(StatusSms, u, a);
    }

    method SendObligatoryAppointmentNotification(u: User, a: AppointmentRecord)
      modifies this
      ensures sent == old(sent) + Dispatched(enabled, providerName, ObligatorySms, u, a)
    {
      Send(ObligatorySms, u, a);
    }
  }
}
