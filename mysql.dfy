/**
 * The URL multiplexer of the mysql package: a table from URL scheme to the
 * opener registered for it, and the dispatch of a parsed URL to that opener.
 * Openers are opaque identities; what an opener does with the URL (open a
 * database) is outside the model, so dispatch yields the call it makes.
 */
module MySQL {
  import opened Wrappers

  /** The scheme the package registers its own opener under. */
  const Scheme: string := "mysql"

  /** An opener as the table holds it: Go's nil interface value, or some opener by identity. */
  datatype Opener = NilOpener | OpenerRef(id: nat)

  /** The &URLOpener{} the package registers at load time. */
  const MySQLURLOpener: Opener := OpenerRef(0)

  /** A parsed URL: its scheme and, opaquely, the rest of it. */
  datatype URL = URL(scheme: string, rest: string)

  datatype OpenError = NoScheme(url: URL) | NoProvider(url: URL, scheme: string)

  /** The call OpenMySQLURL delegates to: opener.OpenMySQLURL(ctx, url). */
  datatype OpenCall = OpenCall(opener: Opener, url: URL)

  /** The panic of a duplicate registration, as a value. */
  datatype RegisterError = AlreadyRegistered(scheme: string)

  /** The table read at a scheme, as a Go map read: nil when the scheme is absent. */
  function Get(table: map<string, Opener>, scheme: string): Opener {
    if scheme in table then table[scheme] else NilOpener
  }

  /** Dispatch of a URL through a table of openers. */
  function Dispatch(table: map<string, Opener>, u: URL): (r: Result<OpenCall, OpenError>)
    ensures u.scheme == "" ==> r == Failure(NoScheme(u))
    ensures u.scheme != "" && Get(table, u.scheme) == NilOpener ==> r == Failure(NoProvider(u, u.scheme))
    ensures r.Success? <==> u.scheme != "" && u.scheme in table && table[u.scheme] != NilOpener
    ensures r.Success? ==> r.value == OpenCall(table[u.scheme], u)
  {
    if u.scheme == "" then Failure(NoScheme(u))
    else
      var opener := Get(table, u.scheme);
      if opener == NilOpener then Failure(NoProvider(u, u.scheme))
      else Success(OpenCall(opener, u))
  }

  class URLMux {
    var schemes: map<string, Opener>
    /** False while schemes is still Go's nil map. */
    var hasTable: bool

    ghost predicate Valid()
      reads this
    {
      !hasTable ==> schemes == map[]
    }

    /** The zero value: a multiplexer with no registered schemes. */
    constructor ()
      ensures Valid() && !hasTable && schemes == map[]
    {
      schemes := map[];
      hasTable := false;
    }

    /**
     * Registers opener under scheme, allocating the table on first use. A
     * scheme already present is refused and its entry kept.
     */
    method RegisterMySQL(scheme: string, opener: Opener) returns (err: Option<RegisterError>)
      requires Valid()
      modifies this
      ensures Valid() && hasTable
      ensures old(scheme in schemes) ==> err == Some(AlreadyRegistered(scheme)) && schemes == old(schemes)
      ensures old(scheme !in schemes) ==> err == None && schemes == old(schemes)[scheme := opener]
      ensures old(scheme !in schemes) ==> schemes.Keys == old(schemes).Keys + {scheme}
    {
      if !hasTable {
        schemes, hasTable := map[], true;
      } else if scheme in schemes {
        return Some(AlreadyRegistered(scheme));
      }
      schemes := schemes[scheme := opener];
      return None;
    }
  }

  /**
   * OpenMySQLURL on a possibly nil multiplexer: a URL without a scheme fails
   * first; a nil multiplexer has no provider for any scheme.
   */
  function OpenMySQLURL(mux: URLMux?, u: URL): (r: Result<OpenCall, OpenError>)
    reads mux
    ensures mux == null ==> r == Failure(if u.scheme == "" then NoScheme(u) else NoProvider(u, u.scheme))
    ensures mux != null ==> r == Dispatch(mux.schemes, u)
  {
    Dispatch(if mux == null then map[] else mux.schemes, u)
  }

  /**
   * Registering a fresh scheme changes dispatch for that scheme only, and
   * only when the scheme is non-empty and the opener non-nil.
   */
  lemma DispatchAfterRegister(table: map<string, Opener>, scheme: string, opener: Opener, u: URL)
    requires scheme !in table
    ensures Dispatch(table[scheme := opener], u) ==
      if u.scheme == scheme && scheme != "" && opener != NilOpener then Success(OpenCall(opener, u))
      else Dispatch(table, u)
  {
  }

  /** The multiplexer after the package's init: "mysql" mapped to the package's opener. */
  method NewDefaultURLMux() returns (mux: URLMux)
    ensures fresh(mux) && mux.Valid() && mux.schemes == map[Scheme := MySQLURLOpener]
    ensures forall rest :: OpenMySQLURL(mux, URL(Scheme, rest)) == Success(OpenCall(MySQLURLOpener, URL(Scheme, rest)))
  {
    mux := new URLMux();
    var err := mux.RegisterMySQL(Scheme, MySQLURLOpener);
  }
}
