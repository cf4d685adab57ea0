/**
 * The records of the application: clients (farm properties), field visits
 * and the derived dashboard summary. The string unions of the TypeScript
 * interfaces are closed enumerations here; each comes with the literal it is
 * stored as and the parse back from that literal.
 */
module Types {
  import opened Wrappers

  /** Cultivation system of a property. */
  datatype TipoSistema =
    | Convencional | Organico | PlantioDireto | CultivoMinimo | Ilp | Ilpf
    | Agroflorestal | Hidroponico | Outro

  function TipoSistemaName(t: TipoSistema): string {
    match t
    case Convencional => "convencional"
    case Organico => "organico"
    case PlantioDireto => "plantio-direto"
    case CultivoMinimo => "cultivo-minimo"
    case Ilp => "ilp"
    case Ilpf => "ilpf"
    case Agroflorestal => "agroflorestal"
    case Hidroponico => "hidroponico"
    case Outro => "outro"
  }

  /** Reads a stored literal back; anything outside the nine literals is refused. */
  function ParseTipoSistema(s: string): (r: Option<TipoSistema>)
    ensures r.Some? ==> TipoSistemaName(r.value) == s
    ensures r.None? ==> forall t: TipoSistema :: TipoSistemaName(t) != s
  {
    if s == "convencional" then Some(Convencional)
    else if s == "organico" then Some(Organico)
    else if s == "plantio-direto" then Some(PlantioDireto)
    else if s == "cultivo-minimo" then Some(CultivoMinimo)
    else if s == "ilp" then Some(Ilp)
    else if s == "ilpf" then Some(Ilpf)
    else if s == "agroflorestal" then Some(Agroflorestal)
    else if s == "hidroponico" then Some(Hidroponico)
    else if s == "outro" then Some(Outro)
    else None
  }

  /** There are exactly nine cultivation systems, with nine distinct literals. */
  lemma TipoSistemaHasNineValues()
    ensures |set t: TipoSistema | true :: TipoSistemaName(t)| == 9
  {
    var names := set t: TipoSistema | true :: TipoSistemaName(t);
    assert names == {"convencional", "organico", "plantio-direto", "cultivo-minimo", "ilp",
                     "ilpf", "agroflorestal", "hidroponico", "outro"} by {
      forall n | n in names
        ensures n in {"convencional", "organico", "plantio-direto", "cultivo-minimo", "ilp",
                      "ilpf", "agroflorestal", "hidroponico", "outro"}
      {
        var t :| TipoSistemaName(t) == n;
        match t
        case _ =>
      }
      assert TipoSistemaName(Convencional) in names;
      assert TipoSistemaName(Organico) in names;
      assert TipoSistemaName(PlantioDireto) in names;
      assert TipoSistemaName(CultivoMinimo) in names;
      assert TipoSistemaName(Ilp) in names;
      assert TipoSistemaName(Ilpf) in names;
      assert TipoSistemaName(Agroflorestal) in names;
      assert TipoSistemaName(Hidroponico) in names;
      assert TipoSistemaName(Outro) in names;
    }
  }

  /** Rain at the time of the visit. */
  datatype Chuva = Sim | Nao | Garoa

  function ChuvaName(c: Chuva): string {
    match c
    case Sim => "sim"
    case Nao => "nao"
    case Garoa => "garoa"
  }

  function ParseChuva(s: string): (r: Option<Chuva>)
    ensures r.Some? ==> ChuvaName(r.value) == s
    ensures r.None? ==> forall c: Chuva :: ChuvaName(c) != s
  {
    if s == "sim" then Some(Sim)
    else if s == "nao" then Some(Nao)
    else if s == "garoa" then Some(Garoa)
    else None
  }

  /** Wind at the time of the visit. */
  datatype Vento = Fraco | Moderado | Forte

  function VentoName(v: Vento): string {
    match v
    case Fraco => "fraco"
    case Moderado => "moderado"
    case Forte => "forte"
  }

  function ParseVento(s: string): (r: Option<Vento>)
    ensures r.Some? ==> VentoName(r.value) == s
    ensures r.None? ==> forall v: Vento :: VentoName(v) != s
  {
    if s == "fraco" then Some(Fraco)
    else if s == "moderado" then Some(Moderado)
    else if s == "forte" then Some(Forte)
    else None
  }

  /** A visit report is either a draft or a completed report. */
  datatype Status = Rascunho | Concluida

  function StatusName(s: Status): string {
    match s
    case Rascunho => "rascunho"
    case Concluida => "concluida"
  }

  function ParseStatus(s: string): (r: Option<Status>)
    ensures r.Some? ==> StatusName(r.value) == s
    ensures r.None? ==> forall t: Status :: StatusName(t) != s
  {
    if s == "rascunho" then Some(Rascunho)
    else if s == "concluida" then Some(Concluida)
    else None
  }

  /** Every enumeration value survives being stored as its literal and read back. */
  lemma LiteralsRoundTrip(t: TipoSistema, c: Chuva, v: Vento, s: Status)
    ensures ParseTipoSistema(TipoSistemaName(t)) == Some(t)
    ensures ParseChuva(ChuvaName(c)) == Some(c)
    ensures ParseVento(VentoName(v)) == Some(v)
    ensures ParseStatus(StatusName(s)) == Some(s)
  {
  }

  /**
   * A calendar date, as the visit date `YYYY-MM-DD` denotes it
   * (month 1 to 12, day 1 to 31 on well-formed input).
   */
  datatype CivilDate = CivilDate(year: int, month: int, day: int)

  predicate ValidDate(d: CivilDate) {
    1 <= d.month <= 12 && 1 <= d.day <= 31
  }

  /** The number dates are compared by: a stand-in for `getTime()` on date-only values. */
  function DateKey(d: CivilDate): int {
    d.year * 416 + d.month * 32 + d.day
  }

  /** Calendar order of well-formed dates. */
  predicate DateBefore(a: CivilDate, b: CivilDate) {
    a.year < b.year || (a.year == b.year && (a.month < b.month || (a.month == b.month && a.day < b.day)))
  }

  /** On well-formed dates the key orders exactly as the calendar does. */
  lemma DateKeyOrdersDates(a: CivilDate, b: CivilDate)
    requires ValidDate(a) && ValidDate(b)
    ensures DateKey(a) < DateKey(b) <==> DateBefore(a, b)
    ensures DateKey(a) == DateKey(b) <==> a == b
  {
    var ra, rb := a.month * 32 + a.day, b.month * 32 + b.day;
    assert 33 <= ra < 416 && 33 <= rb < 416;
    if a.year < b.year {
      assert a.year * 416 + 416 <= b.year * 416;
    } else if a.year > b.year {
      assert b.year * 416 + 416 <= a.year * 416;
    }
  }

  datatype CondicoesClimaticas = CondicoesClimaticas(
    temperatura: Option<real>,
    chuva: Chuva,
    mmChuva: Option<real>,   // millimetres of rain
    umidade: Option<real>,
    vento: Vento)

  datatype Diagnostico = Diagnostico(
    estadoNutricional: string,
    pragas: string,
    doencas: string,
    plantasDaninhas: string,
    condicoesSolo: string,
    manejo: string)

  datatype Recomendacoes = Recomendacoes(
    adubacao: string,
    aplicacoesFitossanitarias: string,
    manejoIrrigacao: string,
    observacoesGerais: string)

  /** A registered property and its producer. */
  datatype Cliente = Cliente(
    id: string,
    nomeProdutor: string,
    nomeFazenda: string,
    localizacao: string,
    latitude: Option<real>,
    longitude: Option<real>,
    telefone: string,
    email: string,
    whatsapp: Option<string>,
    culturaPrincipal: string,
    areaCultivada: real,      // hectares
    tipoSistema: TipoSistema,
    dataCadastro: string)

  /**
   * A field visit. It refers to its client by `clienteId` and keeps copies of
   * the client's producer and farm names taken when the visit was written.
   */
  datatype Visita = Visita(
    id: string,
    dataVisita: CivilDate,
    responsavelTecnico: string,
    empresa: string,
    clienteId: string,
    clienteNome: string,
    fazendaNome: string,
    cultura: string,
    variedade: string,
    estadioFenologico: string,
    condicoesClimaticas: CondicoesClimaticas,
    diagnostico: Diagnostico,
    recomendacoes: Recomendacoes,
    fotos: seq<string>,       // encoded images
    latitude: Option<real>,
    longitude: Option<real>,
    status: Status,
    dataCriacao: string)

  /** A crop and the number of visits made to it. */
  datatype CulturaCount = CulturaCount(cultura: string, count: nat)

  /** The dashboard summary: two counts, a crop ranking and the latest visits. */
  datatype DashboardStats = DashboardStats(
    visitasMes: nat,
    propriedadesVisitadas: nat,
    principaisCulturas: seq<CulturaCount>,
    ultimasVisitas: seq<Visita>)

  function ClienteId(c: Cliente): string { c.id }
  function VisitaId(v: Visita): string { v.id }
  function VisitaDate(v: Visita): int { DateKey(v.dataVisita) }
  function VisitaCultura(v: Visita): string { v.cultura }
  function CulturaOf(e: CulturaCount): string { e.cultura }
  function CountOf(e: CulturaCount): int { e.count }
}
