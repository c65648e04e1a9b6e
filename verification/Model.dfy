/** The data that flows through the analyzer: workloads, Services, and the
    connections discovered between them. */
module Model {

  datatype Option<+T> = None | Some(value: T)

  /** Go's int32, the width of every port number read from a manifest. */
  type Int32 = n: int | -0x8000_0000 <= n < 0x8000_0000

  datatype IntOrString = FromInt(intVal: Int32) | FromString(strVal: string) {

    /** The IntVal field; zero when the value holds a string. */
    function IntPart(): Int32 {
      if FromInt? then intVal else 0
    }

    /** The StrVal field; empty when the value holds a number. */
    function StrPart(): string {
      if FromString? then strVal else ""
    }
  }

  datatype SvcNetworkAttr = SvcNetworkAttr(name: string, port: Int32, targetPort: IntOrString,
                                           protocol: string, exposeToCluster: bool) {

    /** Does a port reference of an Ingress or a Route denote this port? */
    predicate Equals(p: IntOrString) {
      || (name != "" && name == p.StrPart())
      || (port > 0 && port == p.IntPart())
    }
  }

  /** The zero value of the Go struct. */
  const NO_PORT := SvcNetworkAttr("", 0, FromInt(0), "", false)

  datatype CfgMap = CfgMap(fullName: string, data: map<string, string>)

  datatype CfgMapKeyRef = CfgMapKeyRef(name: string, key: string)

  datatype Resource = Resource(name: string, namespace: string, labels: map<string, string>, kind: string,
                               networkAddrs: seq<string>, configMapRefs: seq<string>,
                               configMapKeyRefs: seq<CfgMapKeyRef>, usedPorts: seq<SvcNetworkAttr>) {

    predicate Equals(other: Resource) {
      name == other.name && namespace == other.namespace && kind == other.kind
    }
  }

  datatype Service = Service(name: string, namespace: string, selectors: seq<string>,
                             network: seq<SvcNetworkAttr>, exposeExternally: bool)

  datatype Connection = Connection(source: Option<Resource>, target: Resource, link: Service)
}
