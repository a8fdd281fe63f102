/** How a launcher run ends before Xray is spawned: the process exits with a status, or every
    file is written and the launch loop starts. The launch loop itself never ends, so it is
    not part of the outcome. */
module Runs {
  import opened Json
  import Registrar

  datatype Run =
    | Exited(code: int)
    | Serving(config: Json, link: string, upload: Registrar.Upload, report: Registrar.Report)
}
